/**
  The two places that compose a prompt under a token budget: the context manager, which
  summarizes, and the prompt assembly, which truncates.
*/
module PromptContext {
  import opened Words
  import opened TokenBudget

  // -------------------------------------------------------- context manager

  /** `"\n\n".join(sections)`. */
  function JoinSections(sections: seq<string>): string {
    if sections == [] then ""
    else if |sections| == 1 then sections[0]
    else JoinSections(sections[..|sections| - 1]) + "\n\n" + sections[|sections| - 1]
  }

  datatype Layers = Layers(systemPolicy: string, taskContext: string, evidence: string, shortMemory: string,
                           longMemory: string)

  function Sections(l: Layers): seq<string> {
    ["[SYSTEM]\n" + l.systemPolicy, "[TASK]\n" + l.taskContext, "[EVIDENCE]\n" + l.evidence,
     "[SHORT_MEMORY]\n" + l.shortMemory, "[LONG_MEMORY]\n" + l.longMemory]
  }

  function BuildContext(l: Layers, maxTokens: int): string {
    var composed := JoinSections(Sections(l));
    if EstimateTokens(composed) <= maxTokens then composed else Summarize(composed, maxTokens)
  }

  /** The context before it is cut: every layer under its label, in this order. */
  function Composed(l: Layers): string {
    "[SYSTEM]\n" + l.systemPolicy
    + "\n\n[TASK]\n" + l.taskContext
    + "\n\n[EVIDENCE]\n" + l.evidence
    + "\n\n[SHORT_MEMORY]\n" + l.shortMemory
    + "\n\n[LONG_MEMORY]\n" + l.longMemory
  }

  /** One more labelled section. */
  lemma JoinNext(sections: seq<string>, before: string, label_: string, text: string)
    requires sections != [] && JoinSections(sections) == before
    ensures JoinSections(sections + [label_ + text]) == before + ("\n\n" + label_) + text
  {
    assert (sections + [label_ + text])[..|sections|] == sections;
    assert before + "\n\n" + (label_ + text) == before + ("\n\n" + label_) + text;
  }

  lemma SectionsCompose(l: Layers)
    ensures JoinSections(Sections(l)) == Composed(l)
  {
    var s := Sections(l);
    var a := "[SYSTEM]\n" + l.systemPolicy;
    var b := a + ("\n\n" + "[TASK]\n") + l.taskContext;
    var c := b + ("\n\n" + "[EVIDENCE]\n") + l.evidence;
    var d := c + ("\n\n" + "[SHORT_MEMORY]\n") + l.shortMemory;
    JoinNext([s[0]], a, "[TASK]\n", l.taskContext);
    assert [s[0]] + [s[1]] == s[..2];
    JoinNext(s[..2], b, "[EVIDENCE]\n", l.evidence);
    assert s[..2] + [s[2]] == s[..3];
    JoinNext(s[..3], c, "[SHORT_MEMORY]\n", l.shortMemory);
    assert s[..3] + [s[3]] == s[..4];
    JoinNext(s[..4], d, "[LONG_MEMORY]\n", l.longMemory);
    assert s[..4] + [s[4]] == s;
    assert "\n\n" + "[TASK]\n" == "\n\n[TASK]\n" && "\n\n" + "[EVIDENCE]\n" == "\n\n[EVIDENCE]\n";
    assert "\n\n" + "[SHORT_MEMORY]\n" == "\n\n[SHORT_MEMORY]\n" && "\n\n" + "[LONG_MEMORY]\n" == "\n\n[LONG_MEMORY]\n";
  }

  /** A context within the budget is the composed one; any other is its first words and the mark. */
  lemma ContextComposesOrCuts(l: Layers, maxTokens: nat)
    ensures EstimateTokens(Composed(l)) <= maxTokens ==> BuildContext(l, maxTokens) == Composed(l)
    ensures EstimateTokens(Composed(l)) > maxTokens ==>
              && |Split(Composed(l))| > maxTokens
              && BuildContext(l, maxTokens) == Words.Join(Split(Composed(l))[..maxTokens]) + " ..."
  {
    SectionsCompose(l);
    ComposedHasWords(l);
    SummarizeLeavesOrCuts(Composed(l), maxTokens);
  }

  lemma SplitAtBlankLine(a: string, b: string)
    ensures Split(a + "\n\n" + b) == Split(a) + Split(b)
  {
    SplitAtSpace(a, '\n', "\n" + b);
    SplitSkips('\n', b);
    assert ['\n'] + b == "\n" + b;
    assert a + ['\n'] + ("\n" + b) == a + "\n\n" + b;
  }

  /** The words of the first sections are the first words of all of them. */
  lemma {:induction false} LeadingSectionsLead(sections: seq<string>, k: nat)
    requires 0 < k <= |sections|
    ensures Split(JoinSections(sections[..k])) <= Split(JoinSections(sections))
    decreases |sections|
  {
    if k == |sections| {
      assert sections[..k] == sections;
    } else {
      var init := sections[..|sections| - 1];
      LeadingSectionsLead(init, k);
      assert init[..k] == sections[..k];
      SplitAtBlankLine(JoinSections(init), sections[|sections| - 1]);
    }
  }

  /** The composed text has the five section labels, so it is never empty. */
  lemma ComposedHasWords(l: Layers)
    ensures EstimateTokens(JoinSections(Sections(l))) == |Split(JoinSections(Sections(l)))|
    ensures Split(JoinSections(Sections(l))) != []
  {
    var sections := Sections(l);
    var tag := "[SYSTEM]";
    assert IsWord(tag);
    SplitWord(tag, "\n" + l.systemPolicy);
    assert tag + ("\n" + l.systemPolicy) == sections[0];
    LeadingSectionsLead(sections, 1);
    assert JoinSections(sections[..1]) == sections[0];
    assert Split(sections[0])[0] == tag;
    assert Split(sections[0]) <= Split(JoinSections(sections));
  }

  /**
    The context has at most one word more than the budget exactly for budgets that are not
    negative, and then it has that many exactly when the sections were over budget.
  */
  lemma ContextWithinBudgetPlusOne(l: Layers, maxTokens: int)
    ensures EstimateTokens(BuildContext(l, maxTokens)) <= maxTokens + 1 <==> maxTokens >= 0
    ensures maxTokens >= 0 ==>
              (EstimateTokens(BuildContext(l, maxTokens)) == maxTokens + 1 <==>
               EstimateTokens(JoinSections(Sections(l))) > maxTokens)
  {
    ComposedHasWords(l);
    SummarizeKeepsPrefix(JoinSections(Sections(l)), maxTokens);
  }

  /** Leading sections that together fit the budget survive whole: all their words come first, in order. */
  lemma LeadingSectionsSurvive(l: Layers, maxTokens: int, k: nat)
    requires 0 < k <= 5 && |Split(JoinSections(Sections(l)[..k]))| <= maxTokens
    ensures Split(JoinSections(Sections(l)[..k])) <= Split(BuildContext(l, maxTokens))
  {
    ComposedHasWords(l);
    LeadingSectionsLead(Sections(l), k);
    SummarizeKeepsPrefix(JoinSections(Sections(l)), maxTokens);
  }

  /** Whatever is cut, what remains of the composed text is a prefix of its words. */
  lemma ContextIsAPrefix(l: Layers, maxTokens: int)
    ensures var ws := Split(JoinSections(Sections(l))); var kept := Split(BuildContext(l, maxTokens));
      kept == ws || (|ws| > maxTokens && kept == Slice(ws, maxTokens) + ["..."])
  {
    ComposedHasWords(l);
    SummarizeKeepsPrefix(JoinSections(Sections(l)), maxTokens);
  }

  // -------------------------------------------------------- prompt assembly

  datatype SkillItem = SkillItem(name: string, description: string, skillPath: string)

  /** `roles` is the printed list of required roles. */
  datatype ToolItem = ToolItem(name: string, description: string, roles: string)

  /** How much of the skill list goes into the prompt. */
  datatype SkillMode = Auto | ForceAll

  datatype AssemblyInput = AssemblyInput(
    systemPolicy: string, task: string, evidence: string, shortMemory: string, longMemory: string,
    tools: seq<ToolItem>, skills: seq<SkillItem>, maxSkillItems: int, mode: SkillMode)

  const DESCRIPTION_TOKENS := 40

  function Description(item: SkillItem): string {
    Truncate(Strip(item.description), DESCRIPTION_TOKENS)
  }

  function SkillLine(item: SkillItem): string {
    "- name: " + item.name + "; description: " + Description(item) + "; skill_path: " + item.skillPath
  }

  function ToolLine(item: ToolItem): string {
    "- " + item.name + ": " + item.description + "; required_roles=" + item.roles
  }

  /** `"\n".join(lines)`. */
  function JoinLines(lines: seq<string>): string {
    if lines == [] then "" else if |lines| == 1 then lines[0] else lines[0] + "\n" + JoinLines(lines[1..])
  }

  function Selected(skills: seq<SkillItem>, maxItems: int, mode: SkillMode): seq<SkillItem> {
    if mode.ForceAll? then skills else Slice(skills, maxItems)
  }

  function SkillLines(skills: seq<SkillItem>): seq<string> {
    seq(|skills|, i requires 0 <= i < |skills| => SkillLine(skills[i]))
  }

  function ToolLines(tools: seq<ToolItem>): seq<string> {
    seq(|tools|, i requires 0 <= i < |tools| => ToolLine(tools[i]))
  }

  method SkillsSection(skills: seq<SkillItem>, maxItems: int, mode: SkillMode) returns (section: string)
    ensures section == if skills == [] then "- none" else JoinLines(SkillLines(Selected(skills, maxItems, mode)))
  {
    if skills == [] {
      return "- none";
    }
    var selected := if mode == ForceAll then skills else Slice(skills, maxItems);
    var lines := [];
    for i := 0 to |selected|
      invariant lines == SkillLines(selected)[..i]
    {
      var description := Strip(selected[i].description);
      if EstimateTokens(description) > DESCRIPTION_TOKENS {
        description := Truncate(description, DESCRIPTION_TOKENS);
      }
      lines := lines + ["- name: " + selected[i].name + "; description: " + description
                        + "; skill_path: " + selected[i].skillPath];
    }
    assert lines == SkillLines(selected);
    return JoinLines(lines);
  }

  method ToolsSection(tools: seq<ToolItem>) returns (section: string)
    ensures section == if tools == [] then "- none" else JoinLines(ToolLines(tools))
  {
    if tools == [] {
      return "- none";
    }
    var lines := [];
    for i := 0 to |tools|
      invariant lines == ToolLines(tools)[..i]
    {
      lines := lines + ["- " + tools[i].name + ": " + tools[i].description + "; required_roles=" + tools[i].roles];
    }
    assert lines == ToolLines(tools);
    return JoinLines(lines);
  }

  /** With the template library the sections end in one newline; without it they are joined as in the context. */
  function Render(input: AssemblyInput, skills: string, tools: string, hasTemplate: bool): string {
    if hasTemplate then
      "[SYSTEM_POLICY]\n" + input.systemPolicy + "\n\n[AVAILABLE_SKILLS]\n" + skills + "\n\n[AVAILABLE_TOOLS]\n" + tools
      + "\n\n[TASK]\n" + input.task + "\n\n[EVIDENCE]\n" + input.evidence
      + "\n\n[SHORT_MEMORY]\n" + input.shortMemory + "\n\n[LONG_MEMORY]\n" + input.longMemory + "\n"
    else
      JoinSections(["[SYSTEM_POLICY]\n" + input.systemPolicy, "[SKILLS]\n" + skills, "[TOOLS]\n" + tools,
                    "[TASK]\n" + input.task, "[EVIDENCE]\n" + input.evidence,
                    "[SHORT_MEMORY]\n" + input.shortMemory, "[LONG_MEMORY]\n" + input.longMemory])
  }

  /** The text before it is cut to the budget. */
  function Rendered(input: AssemblyInput, hasTemplate: bool): string {
    Render(input,
           if input.skills == [] then "- none"
               else JoinLines(SkillLines(Selected(input.skills, input.maxSkillItems, input.mode))),
           if input.tools == [] then "- none" else JoinLines(ToolLines(input.tools)),
           hasTemplate)
  }

  /** The prompt never exceeds the budget (of at least one token) and keeps a prefix of the rendered words. */
  method Assemble(input: AssemblyInput, maxTokens: int, hasTemplate: bool) returns (prompt: string)
    ensures EstimateTokens(prompt) <= Max(maxTokens, 1)
    ensures var rendered := Rendered(input, hasTemplate);
      && (EstimateTokens(rendered) <= maxTokens ==> prompt == rendered)
      && (EstimateTokens(rendered) > maxTokens ==>
            && Split(prompt) == Slice(Split(rendered), Max(maxTokens, 1))
            && prompt == Join(Split(prompt)))
  {
    var skills := SkillsSection(input.skills, input.maxSkillItems, input.mode);
    var tools := ToolsSection(input.tools);
    var rendered := Render(input, skills, tools, hasTemplate);
    TruncateFits(rendered, maxTokens);
    TruncateKeepsPrefix(rendered, maxTokens);
    prompt := if EstimateTokens(rendered) <= maxTokens then rendered else Truncate(rendered, maxTokens);
  }

  /** The sections of the prompt: every text under its label, which for two of them depends on the template library. */
  function PromptSections(input: AssemblyInput, skills: string, tools: string, hasTemplate: bool): seq<string> {
    ["[SYSTEM_POLICY]\n" + input.systemPolicy,
     (if hasTemplate then "[AVAILABLE_SKILLS]\n" else "[SKILLS]\n") + skills,
     (if hasTemplate then "[AVAILABLE_TOOLS]\n" else "[TOOLS]\n") + tools,
     "[TASK]\n" + input.task, "[EVIDENCE]\n" + input.evidence,
     "[SHORT_MEMORY]\n" + input.shortMemory, "[LONG_MEMORY]\n" + input.longMemory]
  }

  /** What the template library renders of the first four sections. */
  function TemplateHead(input: AssemblyInput, skills: string, tools: string): string {
    "[SYSTEM_POLICY]\n" + input.systemPolicy + "\n\n[AVAILABLE_SKILLS]\n" + skills + "\n\n[AVAILABLE_TOOLS]\n" + tools
    + "\n\n[TASK]\n" + input.task
  }

  lemma HeadSections(input: AssemblyInput, skills: string, tools: string)
    ensures JoinSections(PromptSections(input, skills, tools, true)[..4]) == TemplateHead(input, skills, tools)
  {
    var s := PromptSections(input, skills, tools, true);
    var a := "[SYSTEM_POLICY]\n" + input.systemPolicy;
    var b := a + "\n\n[AVAILABLE_SKILLS]\n" + skills;
    var c := b + "\n\n[AVAILABLE_TOOLS]\n" + tools;
    assert "\n\n" + "[AVAILABLE_SKILLS]\n" == "\n\n[AVAILABLE_SKILLS]\n";
    assert "\n\n" + "[AVAILABLE_TOOLS]\n" == "\n\n[AVAILABLE_TOOLS]\n" && "\n\n" + "[TASK]\n" == "\n\n[TASK]\n";
    assert s[..1] == [s[0]] && s[..1] + [s[1]] == s[..2] && s[..2] + [s[2]] == s[..3] && s[..3] + [s[3]] == s[..4];
    JoinNext(s[..1], a, "[AVAILABLE_SKILLS]\n", skills);
    JoinNext(s[..2], b, "[AVAILABLE_TOOLS]\n", tools);
    JoinNext(s[..3], c, "[TASK]\n", input.task);
  }

  lemma TailSections(input: AssemblyInput, skills: string, tools: string)
    ensures JoinSections(PromptSections(input, skills, tools, true))
         == TemplateHead(input, skills, tools) + "\n\n[EVIDENCE]\n" + input.evidence
            + "\n\n[SHORT_MEMORY]\n" + input.shortMemory + "\n\n[LONG_MEMORY]\n" + input.longMemory
  {
    HeadSections(input, skills, tools);
    var s := PromptSections(input, skills, tools, true);
    var d := TemplateHead(input, skills, tools);
    var e := d + "\n\n[EVIDENCE]\n" + input.evidence;
    var f := e + "\n\n[SHORT_MEMORY]\n" + input.shortMemory;
    assert "\n\n" + "[EVIDENCE]\n" == "\n\n[EVIDENCE]\n" && "\n\n" + "[SHORT_MEMORY]\n" == "\n\n[SHORT_MEMORY]\n";
    assert "\n\n" + "[LONG_MEMORY]\n" == "\n\n[LONG_MEMORY]\n";
    assert s[..4] + [s[4]] == s[..5] && s[..5] + [s[5]] == s[..6] && s[..6] + [s[6]] == s;
    JoinNext(s[..4], d, "[EVIDENCE]\n", input.evidence);
    JoinNext(s[..5], e, "[SHORT_MEMORY]\n", input.shortMemory);
    JoinNext(s[..6], f, "[LONG_MEMORY]\n", input.longMemory);
  }

  /** The prompt is its sections with blank lines between; the template ends it with a line break. */
  lemma RenderedSections(input: AssemblyInput, skills: string, tools: string, hasTemplate: bool)
    ensures Render(input, skills, tools, hasTemplate)
         == JoinSections(PromptSections(input, skills, tools, hasTemplate)) + if hasTemplate then "\n" else ""
  {
    var joined := JoinSections(PromptSections(input, skills, tools, hasTemplate));
    assert joined + "" == joined;
    if hasTemplate { TailSections(input, skills, tools); }
  }

  /** Which skills are listed: all of them, or the first of them, in order. */
  lemma SelectedInOrder(skills: seq<SkillItem>, maxItems: int, mode: SkillMode)
    ensures Selected(skills, maxItems, ForceAll) == skills
    ensures Selected(skills, maxItems, Auto) <= skills
    ensures maxItems >= 0 ==> |Selected(skills, maxItems, Auto)| == if |skills| < maxItems then |skills| else maxItems
  {
    SliceKeepsFront(skills, maxItems);
  }

  /** A line of the skill section names the skill first and its file last. */
  lemma SkillLineTells(item: SkillItem)
    ensures "- name: " + item.name + "; description: " + Description(item) <= SkillLine(item)
    ensures var tail := "; skill_path: " + item.skillPath;
      |SkillLine(item)| >= |tail| && SkillLine(item)[|SkillLine(item)| - |tail|..] == tail
  {
  }

  /** A line of the tool section names the tool and what it is for first, and the roles last. */
  lemma ToolLineTells(tool: ToolItem)
    ensures "- " + tool.name + ": " + tool.description <= ToolLine(tool)
    ensures var tail := "; required_roles=" + tool.roles;
      |ToolLine(tool)| >= |tail| && ToolLine(tool)[|ToolLine(tool)| - |tail|..] == tail
  {
  }

  /** One more line goes after a line break. */
  lemma {:induction false} JoinLinesNext(lines: seq<string>, line: string)
    ensures JoinLines([]) == "" && JoinLines([line]) == line
    ensures lines != [] ==> JoinLines(lines + [line]) == JoinLines(lines) + "\n" + line
  {
    if |lines| > 1 {
      JoinLinesNext(lines[1..], line);
      assert (lines + [line])[1..] == lines[1..] + [line];
      assert lines[0] + "\n" + (JoinLines(lines[1..]) + "\n" + line)
          == lines[0] + "\n" + JoinLines(lines[1..]) + "\n" + line;
    } else if |lines| == 1 {
      assert (lines + [line])[1..] == [line];
    }
  }

  /** Every description in the prompt has at most forty words, the first of the item's own. */
  lemma DescriptionsAreShort(item: SkillItem)
    ensures |Split(Description(item))| <= DESCRIPTION_TOKENS
    ensures Split(Description(item)) <= Split(Strip(item.description))
  {
    TruncateFits(Strip(item.description), DESCRIPTION_TOKENS);
    TruncateKeepsPrefix(Strip(item.description), DESCRIPTION_TOKENS);
  }
}
