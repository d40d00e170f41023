# Workplace-harassment triage: prompt assembly

This project models the pure part of the triage service in `server.py`. A
client sends a JSON object mapping questions to answers. The service flattens
it into a situation text. It queries two vector-store collections with fixed
queries: legislation and policy (Section A), and tribunal cases (Section B).
The retrieved documents are stripped, capped and budgeted, then rendered as
labelled excerpt blocks. From the situation and the two blocks it composes a
system message and a user message, and it returns the chat model's reply or
a marked failure message.

Modules, one per file:

- `Wrappers` (`wrappers.dfy`): `Option`.
- `Text` (`text.dfy`): Python's `str.strip`, `str.join` and `str(n)` for naturals.
- `Merge` (`merge.dfy`): `_merge_experience`.
- `Retrieval` (`retrieval.dfy`): `_format_source` and `_retrieve`. The store's
  answer to the query is an input (`QueryResult`).
- `PromptBuilder` (`prompt.dfy`): `_build_prompt`.
  - `Compose` assembles a prompt from any `Wording`.
  - `Fixed` holds server.py's exact wording, and `BuildPrompt` is `Compose` at `Fixed`.
  - The layout properties are proved for every wording, so they hold for `Fixed`.
- `Triage` (`triage.dfy`): `_call_llm`, `triage` and the `/chat` route.
  - The vector store (`Store`) and the chat model (`Model`) are function
    parameters.
  - The wording is a parameter too. `Triage(Fixed, ...)` is server.py's
    `triage`, and `Chat(Fixed, ...)` is its `/chat` route.
  - The constants of `server.py:17-19` and the two fixed queries are
    `TopKA`, `TopKB`, `BudgetA`, `BudgetB`, `CapA`, `CapB`, `QueryA` and `QueryB`.

Three behaviours of `server.py` worth stating:

- There is no guardrail. A failed or empty legislation retrieval does not
  abort the pipeline or produce a 503. The model is always called, and the
  failure notice is passed to it as Section A (`LegislationFailureReachesModel`,
  `ModelAlwaysConsulted`).
- The `/chat` route answers 200 with `reply_markdown`, or 400 when the merged
  text is empty. No resources are returned (`Chat`).
- A block's excerpt total may exceed its budget. The bound is "less than the
  budget plus one chunk cap" (`SelectedExcerpts`).

## Model

| member | source | states |
|---|---|---|
| Text.Strip | server.py:50-51 | `strip()` yields text with no whitespace at either end. It is empty exactly when the input is all whitespace, and it is never longer than the input. |
| Text.StripIsInfix | server.py:50-51 | `strip()` removes only whitespace. The result is a contiguous slice of the input, with an all-space prefix before it and an all-space suffix after it. |
| Text.StripIdempotent | server.py:116-117 | Stripping an already stripped text changes nothing. |
| Text.StripTrimmed | server.py:57 | Text that starts and ends with a non-space is left unchanged by `strip()`. |
| Text.RStripKeepsPrefix | server.py:117 | Stripping the end of a text keeps any prefix that ends in a non-space character. |
| Text.Join | server.py:91 | `sep.join(parts)` starts with the first part and ends with the last. It is empty for no parts. |
| Text.JoinAppend | server.py:91 | The parts appear in order with `sep` between neighbours: joining two non-empty lists is joining each and putting `sep` between them. |
| Text.NatToString | server.py:83-84 | `str(n)` is a non-empty run of decimal digits with no leading zero. |
| Text.NatToStringRoundTrip | server.py:83-84 | Reading back the digits `str(n)` writes gives `n`. |
| Text.NatToStringInjective | server.py:83-84 | Distinct ordinals are written as distinct digit strings. |
| Merge.Lines | server.py:48-56 | There is at most one line per entry. Every line is non-empty and trimmed. There are no lines exactly when every answer is blank. |
| Merge.MergeExperience | server.py:43-57 | The merged text is empty exactly when the payload is not an object or every answer is blank. It is always trimmed. |
| Merge.MergeIsJoinedLines | server.py:57 | The final `strip()` is a no-op: the merged text is the kept lines joined by newlines. |
| Merge.LinesSingle | server.py:50-56 | One entry yields `"q: a"` (or the bare answer when the question is blank) exactly when its stripped answer is non-blank, and yields nothing otherwise. |
| Merge.LinesConcat | server.py:49-56 | Entries are processed in order. The lines of two consecutive runs of entries are the lines of the first run followed by those of the second. |
| Merge.MergeConcat | server.py:49-57 | Merging two runs of entries that each keep an answer gives the two merged texts joined by a newline. |
| Merge.MergeExample | server.py:43-57 | An answered question becomes `"Were you yelled at?: Yes, daily"`. An unanswered one is dropped. |
| Retrieval.FormatSource | server.py:60-63 | The source line starts with `"Source: " + filename`. It ends with an em dash and the link exactly when a link exists, and otherwise it is just that prefix. |
| Retrieval.SourceUrlPreferred | server.py:61 | A non-empty `source_url` is shown in preference to `url`. `url` is shown only when `source_url` is missing or empty. |
| Retrieval.Truncate | server.py:80-81 | A capped text is a prefix of the document and at most `cap` long. It is the whole document when that fits, and exactly `cap` characters otherwise. |
| Retrieval.ExcerptAtFaithful | server.py:77-82 | The excerpt of a non-blank document is that document stripped and capped, with its own metadata. |
| Retrieval.CandidatesFaithful | server.py:76-82 | The reference list of non-blank documents is faithful to the result and follows result order. It is empty exactly when every document is blank. |
| Retrieval.CandidatesComplete | server.py:76-79 | Every non-blank document's excerpt is in the reference list. Only blank documents are skipped. |
| Retrieval.ScanIsBudgetedPrefix | server.py:75-90 | The loop takes a prefix of the reference list. The prefix is non-empty when the list is non-empty. The running total stays below the budget after every excerpt but the last. Excerpts are left over only once the budget is reached. |
| Retrieval.SelectedExcerpts | server.py:75-90 | The taken excerpts are stripped and capped, taken only from non-blank documents (so their texts are non-empty when the cap is positive), in result order and a prefix of the non-blank documents. The loop stops at the first excerpt that reaches the budget. For a positive budget the total stays below budget plus cap. |
| Retrieval.Label | server.py:83-84 | A label is exactly `"[" + prefix + ordinal + " " + filename + "#" + chunk_index + "]"`. The contract pins it down by its prefix up to `#`, its suffix from `#` and its length. |
| Retrieval.LabelChunkIndex | server.py:83-84 | A label shows the stored `chunk_index` when there is one, and otherwise the raw result position, not the ordinal. |
| Retrieval.OrdinalsDistinguishLabels | server.py:83-84 | Labels with different ordinals differ whatever their excerpts, so a label's ordinal can be recovered. |
| Retrieval.Render | server.py:86 | A rendered excerpt is its label line, then its source line, then the excerpt text, with nothing else: the head is a prefix, the text is a suffix, and the lengths add up. |
| Retrieval.RenderAll | server.py:83-87 | The `j`-th rendered excerpt (from 0) carries ordinal `j + 1`: ordinals count taken excerpts, not result positions. |
| Retrieval.RenderedOrdinals | server.py:83-87 | The `j`-th rendered excerpt opens with `"[" + prefix + str(j + 1) + " "` and ends with its excerpt's text. |
| Retrieval.Retrieve | server.py:66-91 | A failed query gives the notice `"[<prefix>1] Retrieval failed: <error>"` and count 0. Otherwise the count is the number of taken excerpts, and the text is their renderings joined by blank lines. The count is positive exactly when some document is non-blank. The text is blank exactly when the query succeeded with nothing taken. |
| PromptBuilder.Compose | server.py:94-140 | The system message is the wording's system text. The user message opens with the situation header, the stripped situation and the Section A header, and it ends with the closing tasks. |
| PromptBuilder.BuildPrompt | server.py:94-140 | With server.py's wording, the prompt has the fixed system message. The user message opens with the stripped situation under its header, followed by the Section A header, and it ends with the disclaimer task. |
| PromptBuilder.ComposeLayout | server.py:107-138 | The user message is: the situation, Section A, then Section B (header and case block verbatim) exactly when there are cases and the case block is non-blank, then the tasks. Section A is the stripped block, or `(none retrieved)` when the block is blank. |
| PromptBuilder.ComposeIgnoresCaseBlockWithoutCases | server.py:108-112 | Without cases the case block has no effect on the prompt. |
| PromptBuilder.ComposeSeesStrippedInputs | server.py:116-117 | Whitespace around the situation or the Section A block does not change the prompt. |
| PromptBuilder.SectionAStartsWith | server.py:114-117 | Whatever the stripped Section A block starts with appears right after the Section A header. |
| PromptBuilder.TaskThreeDependsOnCases | server.py:126-132 | With server.py's wording, the task list with cases differs from the one without cases. |
| Retrieval.FailureNoticeSurvivesStrip | server.py:71 | After `_build_prompt` strips a failure notice, it still opens with `"[<prefix>1] Retrieval failed:"`. |
| Triage.CallLlm | server.py:143-158 | The reply is the completion text. When the call fails, it is `"**LLM call failed:** "` followed by exactly the error text. |
| Triage.TriagePrompt | server.py:170-174 | The prompt sent carries the wording's system message, and its user message opens with the stripped situation under its header. |
| Triage.Triage | server.py:161-175 | A blank situation yields `"Please paste the user's situation."`. Any other situation yields the model's answer to the triage prompt. |
| Triage.BlankNeedsNoServices | server.py:163-164 | A blank situation is answered without consulting the store or the model. |
| Triage.OnlyFixedQueriesMatter | server.py:167-172 | The reply depends on the store only through its answers to the two fixed queries with result counts 8 and 3. |
| Triage.ModelAlwaysConsulted | server.py:161-175 | There is no guardrail: for a non-blank situation the reply is the model's completion or its marked failure. |
| Triage.CaseSectionIffCasesFound | server.py:171-174 | Section B and the case task appear exactly when the case query found a non-blank document. Otherwise, including when the case query failed, Section A is followed directly by the no-case tasks. |
| Triage.LegislationFailureReachesModel | server.py:170-175 | When the legislation query fails, the prompt is still built, and its Section A opens with `"[A1] Retrieval failed:"` right after the Section A header. |
| Triage.Chat | server.py:195-204 | The route answers 400 with `"Missing user experience data"` exactly when the merged text is empty. Otherwise the reply is the model's answer to the triage prompt, so the blank-input branch of `triage` is unreachable from the route. |
| Triage.ChatSeesOnlyMergedText | server.py:197-199 | The route depends on the payload only through its merged text. |

## Left out

- HTTP and process concerns are not modelled: Flask, CORS, environment variables, `/healthz`, the entry point and logging. `Chat` models only the two answers of the `/chat` route, and `ChatResponse.Status` gives their status codes.
- The vector store is not modelled: Chroma, its embedding function and the ranking. The store is a function from collection, query text and result count to a `QueryResult`. The result count is passed to the store and nothing else.
- The OpenAI client is not modelled: the model name, temperature 0.1 and 900 max tokens. The chat model is a function from `Prompt` to `Completion`. A completion whose content is `None` is not modelled.
- `main.js`, the browser client, is not part of this model.
- Retrieval.QueryResult: the store's batch dimension (the `[0]` index) is collapsed to one result set. `WellFormed` requires the documents and metadata lists to be at least as long as the ids list. With shorter lists the source raises an uncaught `IndexError`, and that case is not modelled.
- Retrieval.Truncate: the cap is a natural number. Python's slicing with a negative cap is not modelled because the source only uses 900.
- Retrieval.Meta: metadata values are strings or absent. Python's `str()` of non-string values, such as an integer `chunk_index`, is taken as already applied.
- Merge.Payload: the entries are the items of the parsed dictionary, with distinct keys (`Keyed`) in insertion order. The JSON parser's folding of a repeated key (the first position keeps the last answer) is not modelled, and merging is defined for any entry list, including one that no dictionary can hold.
- Merge.Payload: keys and answers are strings. Python's `str()` of non-string JSON values (numbers, lists, `null`) is not modelled.
- Text.Strip: Python strips every Unicode whitespace character. The model uses a fixed set: the ASCII whitespace characters, U+001C to U+001F, U+0085 and U+00A0.
- Triage.CallLlm: the error text is `str(e)` of the exception raised by the client, and the model takes it as given.
