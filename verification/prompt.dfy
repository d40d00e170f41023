/** Composition of the system and user messages sent to the model
    (`_build_prompt` in server.py). */
module PromptBuilder {
  import opened Text

  /** The two chat messages of one request. */
  datatype Prompt = Prompt(system: string, user: string)

  /** The fixed wording a prompt is assembled from. */
  datatype Wording = Wording(
    system: string,         // the whole system message
    situationHeader: string,
    sectionAHeader: string,
    noneRetrieved: string,  // stands in for a blank Section A
    sectionBHeader: string,
    openingTasks: string,   // tasks 1 and 2
    caseTask: string,       // task 3 when case excerpts were found
    noCaseTask: string,     // task 3 when none were found
    closingTasks: string)   // tasks 4 to 6, ending with the disclaimer task

  const DisclaimerTask: string :=
    "6) Disclaimer: one line that this is general information, not legal advice."

  const NextStepsTasks: string :=
    "4) Next Steps: 3\U{2013}5 actionable steps consistent with your assessment.\n"
    + "5) Sources: list the specific Section A sources (by name/URL) you relied on.\n"

  const CaseTask: string :=
    "3) Similar Tribunal Decisions (context only): list 1\U{2013}3 items drawn ONLY from the case excerpts above; "
    + "1\U{2013}2 lines each; include outcome; cite by the provided "
    + "source names/URLs.\n"

  const NoCaseTask: string :=
    "3) Do not include a 'Similar Tribunal Decisions' section (no case excerpts were provided).\n"

  /** The wording server.py uses. */
  const Fixed: Wording := Wording(
    system :=
      "You are a BC workplace triage explainer. "
      + "Use legislation/policy excerpts to assess whether the described conduct likely qualifies as bullying or harassment. "
      + "Base your analysis ONLY on the Legislation Excerpts (Section A). "
      + "List exact sources you rely on by name/URL as shown in the excerpts. "
      + "If NO case excerpts are provided, OMIT the 'Similar Tribunal Decisions' section entirely. "
      + "If case excerpts are provided, you may include a brief 'Similar Tribunal Decisions' section using ONLY those case excerpts; "
      + "do not invent or imply the existence of other cases. "
      + "Never invent sources or citations.",
    situationHeader := "User Situation:\n---\n",
    sectionAHeader :=
      "\n\nSection A \U{2014} Legislation Excerpts (authoritative; use these to assess and justify):\n---\n",
    noneRetrieved := "(none retrieved)",
    sectionBHeader :=
      "\n\nSection B \U{2014} Case Excerpts (context only; do not change your decision based on these):\n---\n",
    openingTasks :=
      "\n\nYour tasks:\n"
      + "1) Assessment under the Law & Policy (use ONLY Section A):\n"
      + "   - Return one of: 'very likely', 'likely', 'borderline', or 'unlikely'.\n"
      + "   - Provide 3\U{2013}5 bullets mapping the user's facts to legal elements. Quote sparingly and refer to the provided "
      + "sources by name/URL.\n"
      + "2) Confidence: repeat the likelihood from #1.\n",
    caseTask := CaseTask,
    noCaseTask := NoCaseTask,
    closingTasks := NextStepsTasks + DisclaimerTask)

  /** The user message up to the Section A excerpts: the situation under its
      header, then the Section A header. */
  function Head(w: Wording, situation: string): string {
    w.situationHeader + Strip(situation) + w.sectionAHeader
  }

  /** What Section A shows: the stripped block, or the placeholder when the block is blank. */
  function SectionABody(w: Wording, aBlock: string): string {
    if AllSpace(aBlock) then w.noneRetrieved else Strip(aBlock)
  }

  /** Section B: its header and the case block verbatim when there are cases
      and the block is not blank, nothing otherwise. */
  function SectionB(w: Wording, bBlock: string, hasCases: bool): string {
    if hasCases && !AllSpace(bBlock) then w.sectionBHeader + bBlock else []
  }

  /** The task list; only task 3 depends on whether cases were found. */
  function Tasks(w: Wording, hasCases: bool): string {
    w.openingTasks + (if hasCases then w.caseTask else w.noCaseTask) + w.closingTasks
  }

  /** The prompt for a given wording: the system message, and a user message
      made of the stripped situation, Section A, Section B and the task list. */
  function Compose(w: Wording, situation: string, aBlock: string, bBlock: string, hasCases: bool): (p: Prompt)
    ensures p.system == w.system
    ensures IsPrefix(Head(w, situation), p.user)
    ensures IsSuffix(w.closingTasks, p.user)
  {
    var head := Head(w, situation);
    var user := head + SectionABody(w, aBlock) + SectionB(w, bBlock, hasCases) + Tasks(w, hasCases);
    assert user[..|head|] == head;
    assert user[|user| - |w.closingTasks|..] == w.closingTasks;
    Prompt(w.system, user)
  }

  /** `_build_prompt`. */
  function BuildPrompt(situation: string, aBlock: string, bBlock: string, hasCases: bool): (p: Prompt)
    ensures p.system == Fixed.system
    ensures IsPrefix(Head(Fixed, situation), p.user)
    ensures IsSuffix(DisclaimerTask, p.user)
  {
    var p := Compose(Fixed, situation, aBlock, bBlock, hasCases);
    SuffixThroughAppend(NextStepsTasks, DisclaimerTask, p.user);
    p
  }

  /** A suffix of a text ends with every suffix of that suffix. */
  lemma SuffixThroughAppend(front: string, a: string, c: string)
    requires IsSuffix(front + a, c)
    ensures IsSuffix(a, c)
  {
    var b := front + a;
    assert b[|b| - |a|..] == a;
    assert c[|c| - |a|..] == b[|b| - |a|..];
  }

  /** The user message in its fixed order: the situation, Section A, then
      Section B (header and case block verbatim) exactly when there are cases
      and the case block is not blank, then the tasks. */
  lemma ComposeLayout(w: Wording, situation: string, aBlock: string, bBlock: string, hasCases: bool)
    ensures var head := Head(w, situation) + SectionABody(w, aBlock);
            var user := Compose(w, situation, aBlock, bBlock, hasCases).user;
            && (hasCases && !AllSpace(bBlock) ==> user == head + (w.sectionBHeader + bBlock) + Tasks(w, hasCases))
            && (!(hasCases && !AllSpace(bBlock)) ==> user == head + Tasks(w, hasCases))
  {
    var head := Head(w, situation) + SectionABody(w, aBlock);
    assert head + [] == head;
  }

  /** Without cases the case block is ignored altogether. */
  lemma ComposeIgnoresCaseBlockWithoutCases(w: Wording, situation: string, aBlock: string, b1: string, b2: string)
    ensures Compose(w, situation, aBlock, b1, false) == Compose(w, situation, aBlock, b2, false)
  {
  }

  /** Only the stripped situation and the stripped Section A block matter:
      surrounding whitespace in either leaves the prompt unchanged. */
  lemma ComposeSeesStrippedInputs(w: Wording, situation: string, aBlock: string, bBlock: string, hasCases: bool)
    ensures Compose(w, situation, aBlock, bBlock, hasCases) == Compose(w, Strip(situation), Strip(aBlock), bBlock, hasCases)
  {
    StripIdempotent(situation);
    StripIdempotent(aBlock);
  }

  /** Whatever the stripped Section A block starts with is what the user
      message shows right after the Section A header. */
  lemma SectionAStartsWith(w: Wording, situation: string, aBlock: string, bBlock: string, hasCases: bool, start: string)
    requires start != [] && IsPrefix(start, Strip(aBlock))
    ensures IsPrefix(Head(w, situation) + start, Compose(w, situation, aBlock, bBlock, hasCases).user)
  {
    var head := Head(w, situation);
    var body := SectionABody(w, aBlock);
    assert body == Strip(aBlock);
    var front := head + body;
    var user := Compose(w, situation, aBlock, bBlock, hasCases).user;
    assert user[..|front|] == front;
    forall i | 0 <= i < |head| + |start|
      ensures user[i] == (head + start)[i]
    {
      assert user[i] == front[i];
    }
  }

  /** Task 3 tells the two cases apart: the task lists with and without cases differ. */
  lemma TaskThreeDependsOnCases()
    ensures Tasks(Fixed, true) != Tasks(Fixed, false)
  {
    assert |CaseTask| != |NoCaseTask|;
  }
}
