# llm-labeler, modelled in Dafny

llm-labeler is a GitHub Action that labels a newly opened issue. A run does the
following, in order:

1. It reads its inputs: two required credentials, an optional endpoint and
   model, and an optional JSON list of custom labels.
2. It reads the issue from the triggering event.
3. It makes sure every label of its catalog exists in the repository. The
   catalog is the five default labels, the custom labels, and one label per
   issue type (`Bug`, `Feature`, `Task`).
4. It asks an OpenAI chat model, under a fixed JSON schema, for labels, a type
   and a reasoning.
5. It keeps the suggested labels that match a catalog name case-insensitively
   and warns about the rest.
6. It merges the kept labels and the type into the issue's labels.
7. It publishes `labels-applied` and `type-applied`.

An error in any fatal step ends the run with one `Action failed: <message>`
report.

The model is one Dafny module per source file, plus two shared modules:

- `Base` holds options, results, ASCII lower-casing, `join`/`split` and list filtering.
- `Json` holds JSON values as `JSON.parse` returns them.
- `ActionsCore` holds the warnings the run reports.
- `Types` (src/types.ts) holds the records, the default labels, the issue types and the zod response schema, written as a parse function.
- `Inputs` (src/inputs.ts) holds input defaults and custom-label parsing.
- `GitHub` (src/github.ts) holds:
  - issue normalisation;
  - the label merge;
  - the loop that creates missing labels, an imperative method whose random colour and per-label success are nondeterministic;
  - the colour palette.
- `OpenAI` (src/openai.ts) holds:
  - both prompts;
  - the JSON Schema sent with the request, with a validator for it;
  - the checks on the answer;
  - `analyzeIssue`, as a method.
- `Action` (src/index.ts) holds the catalog, the suggestion filter, a specification function for a run's outcome, and `run`, an imperative method proved against that function.

Every remote call is replaced by its outcome, passed in as data. These
outcomes are:

- the inputs as the runner hands them over, plus what `JSON.parse` makes of the custom labels (`None` when it throws): plain values;
- the event payload: a plain value whose issue is `None` when the event is not an issue event;
- the repository's labels: `Err(message)` or the list of names;
- the parsed answer of the chat call: `Err(message)` or the parsed value, `None` when there is none;
- the issue's current labels: `Err(message)` or the list of names, `None` for a label without a name;
- the error, if any, of writing the labels: `None` or `Some(message)`.

All of them are gathered in `Action.World`.

src/index.ts:5 imports `updateIssueLabelsAndType`, and src/index.ts:62 calls
it, but src/github.ts does not export it. That file exports
`updateIssueLabels` (src/github.ts:33). As written, the call throws a
`TypeError` once the issue has been classified, so no run succeeds; see
Findings. `Action.RunOutcomeAsWritten` models that behaviour.
`Action.RunOutcome` and `Action.Run` model the evidently intended behaviour,
in which `run` calls `updateIssueLabels`.

The update merges rather than replaces: it keeps every existing label except
an exact `Bug`, `Feature` or `Task`.

## Model

| member | source | states |
|---|---|---|
| Types.ParseType | src/types.ts:58-60 | A string is accepted as a type exactly when it is one of `Bug`, `Feature`, `Task`, and the parsed type's name is that string |
| Types.SchemaParse | src/types.ts:54-62 | An accepted value is an object whose `labels`, `type` and `reasoning` hold exactly the parsed labels, type name and reasoning, and the type name is one of the three |
| Types.SchemaParseSpec | src/types.ts:54-62 | The response schema accepts a value with result `resp` exactly when the value is an object whose `labels` is the string array of `resp.labels`, whose `type` is the name of `resp`'s type and whose `reasoning` is `resp.reasoning` |
| Types.SchemaParseRoundTrip | src/types.ts:54-62 | A response written as JSON is accepted by the schema and read back unchanged |
| Types.DefaultLabelsWellFormed | src/types.ts:35-44 | There are five default labels, with distinct non-empty names and non-empty descriptions |
| Types.IssueTypesMatchEnum | src/types.ts:49-59 | `ISSUE_TYPES` is exactly the three type names, in order and without repeats, and the schema's enum accepts exactly those names |
| Types.DefaultBugMatchesTypeBug | src/types.ts:36-49 | The default label `bug` and the type `Bug` differ as strings but are equal once lower-cased |
| Inputs.GetActionInputs | src/inputs.ts:8-26 | Reading succeeds exactly when both credentials are set, passes them through, and yields a non-empty endpoint and model and custom labels with non-empty names and descriptions |
| Inputs.RequiredInputsFirst | src/inputs.ts:9-10 | A missing `github-token` fails with the missing-input message before anything else is read, and a missing `openai-api-key` fails next; reading succeeds exactly when both are set |
| Inputs.InputDefaults | src/inputs.ts:11-25 | The credentials pass through; an unset endpoint becomes `https://api.openai.com/v1` and an unset model `gpt-4o-mini`, while set ones are kept; unset custom labels give no labels and no warning |
| Inputs.ParseCustomLabels | src/inputs.ts:33-53 | Parsing never fails, and every label it keeps has a non-empty name and a non-empty description |
| Inputs.NonArrayGivesEmpty | src/inputs.ts:33-52 | Text that does not parse, and JSON that is not an array, both give an empty list and exactly one warning of the matching kind |
| Inputs.FilterItems | src/inputs.ts:42-48 | Every element looked at is either kept or warned about, so without a throw the kept labels and the warnings number as many as the elements; every kept label has a non-empty name and description |
| Inputs.FilterItemsThrows | src/inputs.ts:42-43 | The element filter throws exactly when the array holds a `null` |
| Inputs.FilterItemsKeeps | src/inputs.ts:42-48 | Without a `null`, the filter keeps the accepted elements in order and warns once per rejected element, in order |
| Inputs.FilterItemsWarnsBeforeNull | src/inputs.ts:42-52 | When the filter throws, the warnings already issued are those for the rejected elements before the first `null` |
| Inputs.ArrayFilterSpec | src/inputs.ts:42-48 | For an array without `null`, the labels are the accepted elements as a subsequence, every accepted element is among them, and kept labels plus warnings account for every element exactly once |
| Inputs.AcceptsAsWritten | src/inputs.ts:43 | The as-written test passes only objects, and it passes every element the corrected test accepts |
| Inputs.EmptyStringRejected | src/inputs.ts:43 | An empty-string `label` or `description` is rejected by both the as-written test and the corrected test |
| Inputs.NullElementEmptiesList | src/inputs.ts:42-52 | A `null` element empties the whole list, and the parse-failure warning is the last warning |
| Inputs.AcceptsAgreesOnStrings | src/inputs.ts:43 | On objects whose `label` and `description` are strings or absent, the as-written test and the corrected test agree |
| Inputs.NumericLabelAcceptedAsWritten | src/inputs.ts:43 | The as-written test accepts `{"label": 1, "description": "x"}`, although its `label` is not a string |
| Action.DefaultInputs | src/inputs.ts:8-26 | With only the two credentials set, reading gives the default endpoint and model, no custom labels and no warnings |
| GitHub.GetIssueInfo | src/github.ts:9-24 | Reading fails exactly when the event has no issue, and then with the wrong-trigger message; otherwise a missing title, body or URL reads as `""`, a present one is kept, and the number is passed through |
| GitHub.IssueInfoRoundTrip | src/github.ts:18-23 | The event made from an issue reads back as that issue, and normalising twice changes nothing |
| GitHub.KeptExisting | src/github.ts:51-53 | A current label survives exactly when it has a non-empty name that is not exactly `Bug`, `Feature` or `Task` |
| GitHub.KeptExistingOrder | src/github.ts:51-53 | The surviving labels are the names of the current labels, a missing name read as `""`, filtered by "non-empty and not exactly a type name", so they keep their original order and form a subsequence of the current names |
| GitHub.Dedup | src/github.ts:56 | Removing repeats leaves no repeats and the same elements |
| GitHub.DedupOrder | src/github.ts:56 | Removing repeats keeps the elements in the order of their first occurrences |
| GitHub.MergeLabels | src/github.ts:49-56 | The merged list has no repeats and holds the type and every new label; its elements are exactly the surviving current labels, the new labels and the type |
| GitHub.MergeKeepsExisting | src/github.ts:49-56 | Every current label with a non-empty name other than the three type names survives the merge; the comparison is exact, so `bug` survives |
| GitHub.MergeReplacesTypeLabels | src/github.ts:49-56 | A type name is in the merged list exactly when it is one of the new labels or the new type |
| GitHub.MergeOrder | src/github.ts:56 | The merged list lists the surviving labels, then the new labels, then the type, each at its first occurrence |
| GitHub.MergeIdempotent | src/github.ts:49-56 | Merging the same labels and type into the merged list again gives the same set of labels |
| Action.NewIssueMerge | src/github.ts:49-56 | On an issue without labels, merging `bug` with the type `Bug` gives both `bug` and `Bug`, because names are compared exactly |
| GitHub.UpdateIssueLabels | src/github.ts:33-69 | An error from reading the issue or from writing its labels is rethrown unchanged; otherwise the merged list is what is sent to `setLabels` |
| GitHub.GetRandomColor | src/github.ts:122-135 | The colour is one of the palette entries and a six-digit hex colour |
| GitHub.PaletteWellFormed | src/github.ts:123-134 | The palette holds ten distinct six-digit hex colours |
| GitHub.MissingSpec | src/github.ts:92-98 | Creation is attempted for a required label exactly when no existing name equals its name up to case |
| GitHub.MissingRepeats | src/github.ts:92-98 | The existing names are not updated inside the loop, so a missing label that is required twice is attempted twice |
| GitHub.EnsureLabelsExist | src/github.ts:77-116 | The step never fails. A failed listing gives one warning and no attempts. Otherwise the attempts are exactly the missing required labels, in order, each with a palette colour, and each failed attempt gives one warning, in order |
| OpenAI.LabelLines | src/openai.ts:82-83 | There is one `- name: description` line per catalog entry, in order |
| OpenAI.LabelSectionLines | src/openai.ts:82-89 | Split at line breaks, the label section gives back one `- name: description` line per catalog entry, in order, when no name or description contains a line break |
| OpenAI.SystemPromptEmbedsLabels | src/openai.ts:86-103 | The system prompt is the fixed opening, a line break, the label section, a line break and the fixed closing |
| OpenAI.IssueSectionText | src/openai.ts:111-120 | For every issue, the middle of the user prompt is a line break, `Title: ` and the title, two line breaks, `Description:`, a line break, the body (or `No description provided` for an empty body) and a final line break |
| OpenAI.IssueSectionLines | src/openai.ts:111-120 | When neither the title nor the body contains a line break, split at line breaks, the middle of the user prompt is an empty line, `Title: ` with the title, an empty line, `Description:`, then the body (or `No description provided` for an empty body), then an empty line |
| OpenAI.UserPrompt | src/openai.ts:111-120 | The user prompt is its fixed first line, a line break, the issue lines, a line break and its fixed last line |
| OpenAI.EmptyBodyPlaceholder | src/openai.ts:117 | An empty body gives the same prompt as the body `No description provided`, and a non-empty body is shown as it is |
| OpenAI.PromptCatalogExcludesTypes | src/openai.ts:27 | The prompt lists the five defaults and then the custom labels, and nothing else |
| OpenAI.RequestSchemaShape | src/openai.ts:127-150 | The request schema is of type `object`, requires exactly `labels`, `type` and `reasoning`, forbids other properties, declares those three properties in order, and its `type` enum is `ISSUE_TYPES` |
| OpenAI.LabelsSchemaSpec | src/openai.ts:133-137 | The `labels` sub-schema admits exactly the arrays of strings |
| OpenAI.TypeSchemaSpec | src/openai.ts:138-142 | The `type` sub-schema admits exactly the three type names |
| OpenAI.ReasoningSchemaSpec | src/openai.ts:143-146 | The `reasoning` sub-schema admits exactly the strings |
| OpenAI.RequestSchemaMatchesResponseSchema | src/openai.ts:127-150 | A value is valid against the request schema exactly when the response schema accepts it and it has no property besides the three |
| OpenAI.CheckResponse | src/openai.ts:51-58 | A missing or falsy answer fails with `No response received from OpenAI`. An answer passes exactly when the response schema accepts it, and it then yields that response, whose type is one of the three names |
| OpenAI.ConformingAnswerAccepted | src/openai.ts:41-58 | Every answer that is valid against the schema sent with the request passes the checks |
| OpenAI.CheckResponseRoundTrip | src/openai.ts:51-58 | A response written as JSON is valid against the request schema and comes back from the checks unchanged |
| OpenAI.AnalyzeIssue | src/openai.ts:17-72 | The request carries the key, endpoint, model, both prompts, the schema name `issue_classification` and the schema. An error of the call is rethrown unchanged; otherwise the result is that of the answer checks |
| Action.CatalogLayout | src/index.ts:27-35 | The catalog is the five defaults, then the custom labels, then `Bug`, `Feature` and `Task`, each with `Issue type: T`; the prompt's list is the catalog without the type entries |
| Action.Catalog | src/index.ts:27-35 | The catalog holds the default labels, the custom labels and one entry per issue type, and nothing else, and it has one entry per default, custom label and type |
| Action.AvailableNames | src/index.ts:45-47 | There is one available name per catalog entry, and a name is available exactly when it matches a catalog name up to case |
| Action.ValidLabels | src/index.ts:48-50 | The valid labels are a subsequence of the suggestions and are exactly the suggestions whose lower-cased name is available |
| Action.InvalidLabels | src/index.ts:53-55 | The invalid labels are a subsequence of the suggestions and are exactly the suggestions whose lower-cased name is not available |
| Action.ValidLabelsSpec | src/index.ts:45-55 | The valid labels are the suggestions that match a catalog name up to case, with every copy, in order and in their own casing; the invalid labels are the others; both are subsequences of the suggestions |
| Action.ValidInvalidPartition | src/index.ts:48-55 | Valid and invalid labels split the suggestions: their lengths, and their multisets, add up to those of the suggestions |
| Action.WarningIffUnavailable | src/index.ts:52-59 | The warning is issued exactly when some suggestion is unavailable, and it lists exactly the invalid labels |
| Action.FilterExample | src/index.ts:45-59 | With the default catalog, the suggestions `Bug` and `urgent` keep `Bug` and warn about `urgent` |
| Action.BugIsValid | src/index.ts:45-50 | The suggestion `bug` is kept as it is with the default catalog |
| Action.RunOutcome | src/index.ts:14-81 | A failed run reports behind the `Action failed: ` prefix. A successful run publishes one of the three type names, and the label list sent to `setLabels` holds that type, without repeats |
| Action.Run | src/index.ts:14-81 | The outcome is that of the specification function. Failing to read the inputs or the issue stops the run before any network call, with no request and no label creation. Otherwise the request is the classifier request for the prompt catalog and the issue, and the attempts are the catalog's missing labels. The warnings come in order: inputs, label creation, unavailable suggestions. Every colour is from the palette |
| Action.RunFailsIffAStepFails | src/index.ts:77-80 | A run fails exactly when reading the inputs, reading the issue, classifying, or reading or writing the issue's labels fails. Its one report is `Action failed: ` followed by the message of the first step that failed, for each of these steps |
| Action.RunOutcomeAsWritten | src/index.ts:62-67 | As written, every run fails: the call to the missing export throws after classification |
| Action.UndefinedUpdateFailsAsWritten | src/index.ts:62-79 | As written, a run that fails before the update fails as the intended run does; one that reaches the update fails on the missing export; so every run the intended code completes fails instead |
| Action.MissingTokenFailsFirst | src/index.ts:18-19 | Without `github-token`, a run fails with the missing-input message for it, whatever else is set |
| Action.SucceededOutputs | src/index.ts:61-71 | On success, `labels-applied` is the valid labels joined by `,`. It splits back into them when there is at least one valid label and none contains a comma; with no valid label, `labels-applied` is the empty string. `type-applied` is one of the three type names. The label list sent to `setLabels` holds every valid label and the type, without repeats |
| Action.CrashOnStartupScenario | src/index.ts:14-76 | For the issue `Crash on startup` with default inputs and the answer `{labels: ["bug"], type: "Bug"}`, the run applies `bug`, reports type `Bug`, and sends `setLabels` the list `bug`, `Bug`; as written, the same run fails on the missing export |

## Left out

- The Octokit calls (`issues.get`, `listLabelsForRepo`, `createLabel`, `setLabels`) and the OpenAI client are network I/O, so their results are inputs. The listing is whatever one call returns; the model does not page through labels.
- `core.getInput` trims whitespace and reads environment variables. The model takes each input as a string in which `""` means unset.
- `JSON.parse` is replaced by its result. JSON numbers are integers here, because no floating-point value matters to the action.
- Lower-casing covers ASCII letters only. JavaScript's `toLowerCase` folds all of Unicode.
- The text of the `core.info`, `core.warning` and `core.error` messages is not modelled. Each warning is recorded as a value saying what it is about.
- `temperature: 0.1` in the request is not modelled, because it is a floating-point setting with no effect on the logic.
- OpenAI.CheckResponse: a schema rejection fails with a fixed placeholder message, not with the text of zod's error.
- The outer `main` wrapper (src/index.ts:86-96) is not modelled. `run` catches every error itself, so the wrapper's own report cannot be reached.
- `async`/`await` sequencing is not modelled. The steps run strictly one after another, and the model reads them that way.
- Label objects whose `name` is `null` or missing are modelled as `None`.
- The filter that drops `undefined` before `setLabels` (src/github.ts:62) is not modelled, because the merged list never holds `undefined`.
- Action.Run: it models the evidently intended call to `updateIssueLabels`. As written, src/index.ts:62 calls an import that src/github.ts does not export, and every run that reaches it fails. `Action.RunOutcomeAsWritten` models that; see Findings.
- Action.RunOutcomeAsWritten: the `TypeError` it fails with carries a fixed placeholder message. The real text depends on how the bundle names the import.
- Inputs.ParseCustomLabels: it keeps only labels whose name and description are non-empty strings. This is the corrected test, not the as-written one; see Findings.
- rspack.config.js is build configuration and is not part of this model.

## Findings

| source | as written | input that shows it | evidently intended | confidence | as-written member | corrected member |
|---|---|---|---|---|---|---|
| src/inputs.ts:43 | The filter keeps an element whose `label` or `description` is any truthy value. When `label` is a truthy non-string (a number, a boolean, an array or an object), `l.label.toLowerCase()` (src/index.ts:46) throws on it, so the run fails with `Action failed` after the classifier has been asked. The same call at src/github.ts:98 ends label creation early with a warning. A truthy non-string `description` is kept as well, but nothing throws on it: it reaches the prompt and `createLabel` unchanged. | `custom-labels` = `[{"label": 1, "description": "x"}]` | Keep only elements whose `label` and `description` are non-empty strings, as the `CustomLabel` type (src/types.ts:6-9) declares | not executed | Inputs.NumericLabelAcceptedAsWritten | Inputs.ParseCustomLabels |
| src/index.ts:62 | `run` calls `updateIssueLabelsAndType`, imported at src/index.ts:5, but src/github.ts exports only `updateIssueLabels`. The compiler rejects this. A build that does not type-check leaves the import undefined, so the call throws a `TypeError`. src/index.ts:77-79 then reports `Action failed: …`, so no labels are applied and no outputs are set | Any run whose inputs, issue and answer are valid, such as the `Crash on startup` issue with the answer `{labels: ["bug"], type: "Bug"}` | Call `updateIssueLabels` (src/github.ts:33) with the same arguments | not executed | Action.UndefinedUpdateFailsAsWritten | Action.Run |
