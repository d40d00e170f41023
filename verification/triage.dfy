/** The request pipeline of server.py: `_call_llm`, `triage` and the `/chat`
    route, with the vector store and the chat model as parameters. The prompt
    wording is a parameter too; server.py's is `PromptBuilder.Fixed`, so
    `Triage(Fixed, ...)` and `Chat(Fixed, ...)` are its `triage` and `/chat`. */
module Triage {
  import opened Text
  import opened Merge
  import opened Retrieval
  import opened PromptBuilder

  /** Result counts, character budgets and per-chunk caps of the two retrievals. */
  const TopKA: nat := 8
  const TopKB: nat := 3
  const BudgetA: nat := 2500
  const BudgetB: nat := 2000
  const CapA: nat := 900
  const CapB: nat := 900

  /** The two fixed retrieval queries; the user's text is never sent to the store. */
  const QueryA: string :=
    "bullying harassment definition repeated one serious incident reasonable management action WorkSafeBC"
  const QueryB: string :=
    "supervisor yelling insults repeated humiliation intimidation decision outcome"

  const AskForSituation: string := "Please paste the user's situation."
  const LlmFailurePrefix: string := "**LLM call failed:** "
  const MissingData: string := "Missing user experience data"

  /** The two collections of the store: legislation and policy, and tribunal cases. */
  datatype Collection = Legislation | Cases

  /** What the store answers to one query: a failure, or parallel result lists. */
  type StoreAnswer = r: QueryResult | r.WellFormed() witness QueryFailed("")

  /** The vector store: the answer to a query text with a result count, per collection. */
  type Store = (Collection, string, nat) -> StoreAnswer

  /** What the chat model does with one prompt: a completion, or an error. */
  datatype Completion = Completed(content: string) | CallFailed(error: string)

  type Model = Prompt -> Completion

  /** `_call_llm`: the completion text, or the marked error message. */
  function CallLlm(llm: Model, p: Prompt): (reply: string)
    ensures llm(p).Completed? ==> reply == llm(p).content
    ensures llm(p).CallFailed? ==> (IsPrefix(LlmFailurePrefix, reply) && reply[|LlmFailurePrefix|..] == llm(p).error)
  {
    match llm(p)
    case Completed(content) => content
    case CallFailed(error) =>
      var reply := LlmFailurePrefix + error;
      assert reply[..|LlmFailurePrefix|] == LlmFailurePrefix;
      reply
  }

  /** Section A's block: the legislation store's answer to the fixed query. */
  function LegislationBlock(store: Store): Block {
    Retrieve(store(Legislation, QueryA, TopKA), BudgetA, CapA, "A")
  }

  /** Section B's block: the case store's answer to the fixed query. */
  function CaseBlock(store: Store): Block {
    Retrieve(store(Cases, QueryB, TopKB), BudgetB, CapB, "B")
  }

  /** The prompt `triage` sends in wording `w` (server.py's is `Fixed`): cases
      count as found when at least one case excerpt was used. */
  function TriagePrompt(w: Wording, userText: string, store: Store): (p: Prompt)
    ensures p.system == w.system
    ensures IsPrefix(Head(w, userText), p.user)
  {
    var a := LegislationBlock(store);
    var b := CaseBlock(store);
    Compose(w, userText, a.text, b.text, b.used > 0)
  }

  /** `triage` in wording `w`: a request for input when the text is blank,
      otherwise the model's reply to the prompt; there is no other outcome. */
  function Triage(w: Wording, userText: string, store: Store, llm: Model): (reply: string)
    ensures AllSpace(userText) ==> reply == AskForSituation
    ensures !AllSpace(userText) ==> reply == CallLlm(llm, TriagePrompt(w, userText, store))
  {
    if Strip(userText) == [] then AskForSituation
    else CallLlm(llm, TriagePrompt(w, userText, store))
  }

  /** A blank situation is answered without consulting the store or the model. */
  lemma BlankNeedsNoServices(w: Wording, userText: string, s1: Store, s2: Store, m1: Model, m2: Model)
    requires AllSpace(userText)
    ensures Triage(w, userText, s1, m1) == Triage(w, userText, s2, m2) == AskForSituation
  {
  }

  /** The store is asked exactly the two fixed queries with their fixed result
      counts: two stores that agree on those give the same reply. */
  lemma OnlyFixedQueriesMatter(w: Wording, userText: string, s1: Store, s2: Store, llm: Model)
    requires s1(Legislation, QueryA, TopKA) == s2(Legislation, QueryA, TopKA)
    requires s1(Cases, QueryB, TopKB) == s2(Cases, QueryB, TopKB)
    ensures Triage(w, userText, s1, llm) == Triage(w, userText, s2, llm)
  {
    assert LegislationBlock(s1) == LegislationBlock(s2);
    assert CaseBlock(s1) == CaseBlock(s2);
  }

  /** There is no guardrail between retrieval and the model: a non-blank
      situation always reaches the model, whatever the store answered, and
      the model's completion is the reply. */
  lemma ModelAlwaysConsulted(w: Wording, userText: string, store: Store, llm: Model)
    requires !AllSpace(userText)
    ensures var p := TriagePrompt(w, userText, store);
            && (llm(p).Completed? ==> Triage(w, userText, store, llm) == llm(p).content)
            && (llm(p).CallFailed? ==> IsPrefix(LlmFailurePrefix, Triage(w, userText, store, llm)))
  {
  }

  /** The case section and the case task appear exactly when the case query
      found a non-blank document; otherwise, whatever the case store answered
      (a failure included), Section A is followed directly by the tasks that
      forbid a case section. */
  lemma CaseSectionIffCasesFound(w: Wording, userText: string, store: Store)
    ensures var res := store(Cases, QueryB, TopKB);
            var b := CaseBlock(store);
            var head := Head(w, userText) + SectionABody(w, LegislationBlock(store).text);
            var user := TriagePrompt(w, userText, store).user;
            && (HasCandidate(res) ==> user == head + (w.sectionBHeader + b.text) + Tasks(w, true))
            && (!HasCandidate(res) ==> user == head + Tasks(w, false))
  {
    var b := CaseBlock(store);
    ComposeLayout(w, userText, LegislationBlock(store).text, b.text, b.used > 0);
  }

  /** A failed legislation query does not stop the pipeline: the model is still
      asked, and Section A opens with the retrieval failure notice. */
  lemma LegislationFailureReachesModel(w: Wording, userText: string, store: Store)
    requires store(Legislation, QueryA, TopKA).QueryFailed?
    ensures IsPrefix(Head(w, userText) + FailureLabel("A"), TriagePrompt(w, userText, store).user)
  {
    var notice := LegislationBlock(store).text;
    var b := CaseBlock(store);
    FailureNoticeSurvivesStrip("A", store(Legislation, QueryA, TopKA).error);
    SectionAStartsWith(w, userText, notice, b.text, b.used > 0, FailureLabel("A"));
  }

  /** The answer of the `/chat` route: 400 with an error, or 200 with the reply. */
  datatype ChatResponse = BadRequest(error: string) | Replied(replyMarkdown: string) {
    function Status(): nat {
      if BadRequest? then 400 else 200
    }
  }

  /** The `/chat` route in wording `w`: the merged answers are the situation; a
      request whose merged text is empty is refused, any other one is triaged. */
  function Chat(w: Wording, payload: Payload, store: Store, llm: Model): (resp: ChatResponse)
    ensures resp.BadRequest? <==> MergeExperience(payload) == []
    ensures resp.BadRequest? ==> resp.error == MissingData
    ensures resp.Replied? ==> resp.replyMarkdown == CallLlm(llm, TriagePrompt(w, MergeExperience(payload), store))
  {
    var userText := MergeExperience(payload);
    if userText == [] then BadRequest(MissingData)
    else
      assert !IsSpace(userText[0]);
      Replied(Triage(w, userText, store, llm))
  }

  /** The route reads the payload only through its merged text. */
  lemma ChatSeesOnlyMergedText(w: Wording, p1: Payload, p2: Payload, store: Store, llm: Model)
    requires MergeExperience(p1) == MergeExperience(p2)
    ensures Chat(w, p1, store, llm) == Chat(w, p2, store, llm)
  {
  }
}
