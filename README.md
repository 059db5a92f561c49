# PythonCodeAnalyser core, modelled in Dafny

This project models the analysis core of PythonCodeAnalyser and proves
properties about that model. The core turns a code submission into an
`AnalysisResult` made of typed errors, typed suggestions and metrics. It has
these parts:

- **Schema** (`schema.dfy`): the languages, the submission and the analysis
  result, from `shared/agent-schema.ts`. Anything the schema demands beyond
  the shape of the data (a `file` on every finding, a `message` on every
  error, a severity among `error`/`warning`/`info`) is stated by the `Valid…` predicates.
- **Reply parser** (`reply_parser.dfy`, facts in `parser_facts.dfy`): the
  agent's `performStaticAnalysis`. It reads the advisory service's free-text
  reply, cuts it into `ERRORS:`, `SUGGESTIONS:` and `METRICS:` sections,
  matches each line against `TYPE: message [SEVERITY] (line N)` and reads the
  metric keys. Each regular expression becomes a deterministic function that
  picks the match a leftmost, backtracking engine picks.
- **Agent** (`agent.dfy`): `IDEAgent`. It covers the executor table, the name
  of the file that is run, the merge of the advisory result with the
  execution outcome (`enhanceResults`), the `agent_error` result and the
  per-file history. The history is a class field that `learnFromAnalysis`
  updates in place.
- **Storage** (`storage.dfy`): `MemStorage`, a class with a counter that hands
  out ids from 1 and a map from id to the saved record.
- **Route** (`routes.dfy`): the `/api/analyze` handler. For each file in
  order, it records the file's output and runtime error and appends its
  advisory findings. It then saves the batch with its `improvedCode` map and
  answers 200, or answers 400 when an exception stopped the loop.
- **Python helpers** (`python_utils.dfy`): `formatPythonError` and
  `analyzePythonCode` from the client.
- `text.dfy` holds the JavaScript string operations the core relies on:
  `trim` with JavaScript's white space, `split`, `toLowerCase` on ASCII,
  `includes`, and case-insensitive comparison. `wrappers.dfy` holds `Option`.

Some inputs enter as parameters rather than being modelled:

- The advisory service's answer is the parameter `reply`.
- The outcome of running a file is a parameter: the function `run` for the
  agent, and the `RunOutcome` of each file for the route.
- The route's advisory result for each file is a parameter.

## Model

| member | source | states |
|---|---|---|
| Schema.ParseLanguage | shared/agent-schema.ts:3-11 | a string accepted by the language enum is the JSON name of the language it yields |
| Schema.LanguageEnum | shared/agent-schema.ts:3-11 | the enum has exactly seven distinct members and parsing a language's name gives that language back |
| ReplyParser.FindCI | server/services/agent.ts:131-135 | the position found holds one of the alternatives (case-insensitively), and no earlier position from the start holds any |
| ReplyParser.SeverityToken | server/services/agent.ts:146 | a severity bracket is found exactly when some `[word]` starts at position 1 or later; the one chosen holds a `[word]` with none earlier after the first character past the leading white space, and it is the bracket right after that white space only when no `[word]` follows further on: the lazy message ends at the first bracket it can |
| ReplyParser.ParsedErrors | server/services/agent.ts:137-159 | at most one error per line; every parsed error carries a message, the submission's file name and a severity, and no column |
| ReplyParser.ParsedSuggestions | server/services/agent.ts:161-183 | at most one suggestion per line; every parsed suggestion carries the file name and a severity, and no code |
| ReplyParser.MetricPosition | server/services/agent.ts:188-190 | the metric is read at the leftmost position where key, white space and at least one digit occur; no earlier position qualifies |
| ReplyParser.ErrorResult | server/services/agent.ts:211-222 | one `analysis_error` with the given message, the file name and severity `error`, no suggestions and zero metrics; it conforms to the schema exactly when a message was given (a value thrown without a `message` leaves it out) |
| ParserFacts.SectionOfHeader | server/services/agent.ts:131-135 | when the leftmost header is at `p` with alternative `k`, the section is the text from the header's end to the first terminator after it, or to the end of the reply |
| ParserFacts.SectionPresent | server/services/agent.ts:131-135 | there is no section exactly when no header occurs anywhere in the reply |
| ReplyParser.StaticAnalysis | server/services/agent.ts:111-222 | every finding carries the file name and errors a severity; every error carries a message unless the call rejected with a value without one; metrics are always present; a failed call, a missing text or an empty text gives exactly one `analysis_error` with the right message and zero metrics |
| ReplyParser.DropColons | server/services/agent.ts:146 | the leftmost place the finding pattern can start: the input with exactly its run of leading colons removed |
| ReplyParser.CollectErrors | server/services/agent.ts:138-159 | the loop over the error lines pushes exactly the errors of `ParsedErrors`, in line order |
| ReplyParser.CollectSuggestions | server/services/agent.ts:162-183 | the loop over the suggestion lines pushes exactly the suggestions of `ParsedSuggestions`, in line order |
| ReplyParser.PerformStaticAnalysis | server/services/agent.ts:111-199 | the imperative parse with its default-then-overwrite metrics gives the result `StaticAnalysis` specifies |
| ParserFacts.RenderedFindingMatches | server/services/agent.ts:146-156 | a line written in the prompt's error format `TYPE: message [SEVERITY] (line N)` is parsed back to its type (trimmed, lower-cased), message, lower-cased severity and line number |
| ParserFacts.RenderedErrorLine | server/services/agent.ts:139-157 | a bulleted error line in the prompt's format yields exactly one error with those fields and the file name |
| ParserFacts.PromptErrorExampleParsed | server/services/agent.ts:82-83 | the prompt's own example `SYNTAX: Missing semicolon [ERROR] (line 5)` parses to type `syntax`, severity `error`, line 5 |
| ParserFacts.PromptSuggestionFormatDropped | server/services/agent.ts:85-88 | a suggestion written in the format the prompt asks for, which has no `[SEVERITY]`, never matches the finding pattern and is dropped |
| ParserFacts.FindingOfParts | server/services/agent.ts:146-156 | a line `t: m [w]` followed by any text matches the finding pattern with type `t` trimmed and lower-cased, message `m`, severity `w` lower-cased, and the line number that a `(line N)` opening the rest gives, if any |
| ParserFacts.NoLineTagNoLine | server/services/agent.ts:146-154 | when no `(line` follows the bracket and its white space, the finding has no line number |
| ParserFacts.NoBracketNoFinding | server/services/agent.ts:146 | a line the finding pattern matches contains a `[` |
| ParserFacts.BracketOfBody | server/services/agent.ts:146 | the same for the pattern without its `TYPE:` prefix |
| ParserFacts.BracketFreeLinesNoErrors | server/services/agent.ts:140-158 | lines without `[` yield no errors |
| ParserFacts.ParsedErrorsConcat | server/services/agent.ts:139-158 | lines are parsed independently and in order: the errors of two runs of lines are the errors of the first followed by those of the second |
| ParserFacts.ParsedSuggestionsConcat | server/services/agent.ts:163-182 | the same for suggestions |
| ParserFacts.SplitKeepsOut | server/services/agent.ts:139 | a character absent from a section is absent from every line `split` gives |
| ParserFacts.SectionBeforeEnd | server/services/agent.ts:132 | for a reply that starts with the `ERRORS:` header, an `end` after it bounds the section, whatever the text between them, the letter case of either, and even inside a word: the section is a prefix of the text before the `end` |
| ParserFacts.EndInMessageCutsSection | server/services/agent.ts:132 | for a reply made of the literal `ERRORS:`, a text, a lower-case `end` and anything after: when that text holds no `s`, `m` or `e` in any case (so no other terminator can start in it), the section is exactly that text |
| ParserFacts.EndInMessageDropsFindings | server/services/agent.ts:132-158 | for a reply made of an `ERRORS:` header, any text without `[`, an `end` and anything after, with header and `end` in any letter case, no error is parsed |
| ParserFacts.NoErrorsSectionNoErrors | server/services/agent.ts:132-159 | a non-empty reply in which neither `ERRORS:` nor `TYPE:` occurs, in any case, gives no errors |
| ParserFacts.NoSuggestionsSectionNoSuggestions | server/services/agent.ts:133-183 | a non-empty reply in which `SUGGESTIONS:` occurs nowhere, in any case, gives no suggestions |
| ParserFacts.WhitespaceReplyIsEmptyResult | server/services/agent.ts:113-199 | a non-empty reply made only of white space passes the emptiness test and gives no errors, no suggestions and zero metrics |
| ParserFacts.NoMetricsSectionIsZero | server/services/agent.ts:119-197 | a reply in which `METRICS:` occurs nowhere, in any case, keeps the zero metrics the result starts with |
| ParserFacts.ParsedSeverityMayBeInvalid | server/services/agent.ts:146-156 | a bracketed word other than `error`, `warning` or `info` is copied into the error, which then fails the schema's severity enum |
| ParserFacts.StaticAnalysisValidity | server/services/agent.ts:111-222 | the advisory result conforms to the schema exactly when the service call did not reject with a value lacking a `message` and every error's severity is `error`, `warning` or `info` |
| ParserFacts.MessagelessFailureInvalid | server/services/agent.ts:205-207 | a service call rejected with a value that has no `message` gives one `analysis_error` without a message, which fails the error schema |
| ParserFacts.MetricAtStart | server/services/agent.ts:188-196 | a key at the start of the metrics section, followed by a space and digits, is read as the value of those digits (a key found earlier inside a longer key, as `TIME:` inside `EXECUTION_TIME:`, would be read instead) |
| ParserFacts.MissingMetricIsZero | server/services/agent.ts:193-195 | a key that occurs nowhere in the section reads as 0 |
| Agent.ExecutorTable | server/services/agent.ts:22-30 | the table has a non-empty executor for every language, so the "Unsupported language" error cannot occur |
| Agent.Extension | server/services/agent.ts:302-309 | every language has a non-empty extension without a dot |
| Agent.BaseName | server/services/agent.ts:301 | the base name is the prefix of the file name before its first dot, and contains no dot |
| Agent.ExecutableFilename | server/services/agent.ts:300-312 | the name that is run is the base name, one dot, then the language's extension |
| Agent.Observed | server/services/agent.ts:244-248 | the observed output is stdout when non-empty, else stderr; it is empty exactly when both streams are; and when stdout is non-empty, an `error` in stderr does not make the output look like an error |
| Agent.Enhance | server/services/agent.ts:251-282 | suggestions are kept; time and memory come from the execution and complexity from the advisory result; the output is recorded; the advisory errors are kept in order and one `RUNTIME` error is appended exactly when the output contains `error` in any case |
| Agent.EnhanceValidity | server/services/agent.ts:272-278 | the merged result conforms to the schema exactly when the advisory result did and no runtime error was appended, because that error has no file |
| Agent.AgentErrorResult | server/services/agent.ts:50-66 | a single `agent_error` carrying the thrown message or "Unknown error occurred", with the file name, no suggestions and zero metrics; it conforms to the schema |
| Agent.Recorded | server/services/agent.ts:284-292 | the file's history gets the result appended at its end, and every other file's history is unchanged |
| Agent.IDEAgent.constructor | server/services/agent.ts:16-33 | the agent starts with the executor table and an empty history |
| Agent.IDEAgent.LearnFromAnalysis | server/services/agent.ts:284-292 | the file's history gains the result at its end, and every other file's history is unchanged |
| Agent.IDEAgent.AnalyzeCode | server/services/agent.ts:35-67 | when execution raises, the result is the `agent_error` result and nothing is recorded; otherwise it is the merge of the advisory result with the observed execution, and it is recorded for the file |
| Storage.MemStorage.constructor | server/storage.ts:12-15 | the store starts empty with the next id 1 |
| Storage.MemStorage.SaveAnalysis | server/storage.ts:17-22 | the record gets the next id, which was free; the counter advances by one; only that id's entry is added |
| Storage.MemStorage.GetAnalysis | server/storage.ts:24-26 | a record is found exactly for the ids handed out so far, and it is the one saved under that id |
| Storage.SaveTwice | server/storage.ts:12-26 | two saves on a fresh store get ids 1 and 2, and each id gives back what was saved under it |
| Routes.RuntimeErrors | server/routes.ts:35-55 | a file yields one `runtime` error (line 1, its file name) exactly when running it failed or wrote to stderr, carrying the failure's message or stderr |
| Routes.ExecutionFailure | server/routes.ts:78-84 | the 400 body has one `execution` error carrying the message, no suggestions and no outputs; that error has no file, so it does not conform to the error schema |
| Routes.CollectImprovedCode | server/routes.ts:68-73 | the reduce loop computes the `improvedCode` map |
| Routes.ImprovedCodeDomain | server/routes.ts:68-73 | `improvedCode` has an entry for exactly the files that some suggestion supplies non-empty code for |
| Routes.ImprovedCodeLastWins | server/routes.ts:68-73 | a file's entry is the code of the last suggestion that supplies code for it |
| Routes.Step | server/routes.ts:31-61 | a file that cannot be written stops the loop with its message, and a stopped loop stays as it is; otherwise the errors and suggestions collected so far are kept as a prefix and the file gets an output entry |
| Routes.Fold | server/routes.ts:31-61 | a loop that runs to the end has written every file |
| Routes.ImprovedCode | server/routes.ts:68-73 | every entry of `improvedCode` has a non-empty file name and non-empty code |
| Routes.Handle | server/routes.ts:31-85 | the answer is 200 or 400; it is 400 exactly when some file cannot be written, with the execution failure carrying the first such file's message |
| Routes.StoppedStays | server/routes.ts:31-61 | once an exception stops the loop, later files change nothing |
| Routes.StoppedIffWriteFailed | server/routes.ts:31-84 | the handler stops exactly when some file cannot be written, and it reports the message of the first such file |
| Routes.OutputLastWins | server/routes.ts:31-61 | `output` has an entry for exactly the submitted names, holding the output of the last file with that name |
| Routes.FoldLast | server/routes.ts:31-61 | the loop is still going after a file exactly when it was going before and the file could be written; the file then appends its runtime error, its advisory errors and suggestions, and sets its output |
| Routes.FoldConcatenates | server/routes.ts:31-61 | files are processed in order and their errors and suggestions are concatenated, with nothing merged or dropped |
| Routes.OneFile | server/routes.ts:35-60 | for one file, its runtime error comes before its advisory errors, and its output is recorded under its name |
| Routes.AnalyzeFiles | server/routes.ts:16-85 | the handler's answer is the one the fold specifies; on 200 exactly one batch is saved, under the next id, with the files, the combined analysis, the suggestions, the `improvedCode` map and the outputs; on 400 the store is untouched |
| PythonUtils.ReplaceFirst | client/src/lib/python-utils.ts:4 | a string without the pattern is unchanged; otherwise exactly one occurrence's length is replaced |
| PythonUtils.ReplaceFirstAt | client/src/lib/python-utils.ts:4 | the replacement happens at the leftmost occurrence, and only there |
| PythonUtils.ReplaceFirstUndone | client/src/lib/python-utils.ts:4 | putting the removed text back where it was recovers the original |
| PythonUtils.FormatPythonError | client/src/lib/python-utils.ts:1-6 | the result has no leading or trailing white space and is no longer than the input; without the `File "<string>",` marker it is the trimmed input |
| PythonUtils.FormatIdempotent | client/src/lib/python-utils.ts:3-5 | formatting a message that has no marker twice is the same as formatting it once |
| PythonUtils.AnalyzePythonCode | client/src/lib/python-utils.ts:8-21 | the docstring hint is given exactly when the code has neither `"""` nor `'''`; the print hint exactly when it contains `print ` with the space; at most two hints, the docstring hint first; empty code gives only the docstring hint |

## Left out

- Running code is not modelled: the temporary directory, `writeFile`, `execFile`/`exec` and the `python3` command. Their outcome is a parameter.
- The wall-clock timing (`process.hrtime`) and the heap sample are not modelled. They are opaque `real` values inside the execution outcome, and floating-point arithmetic is not modelled.
- The advisory service call (`cohereClient.generate`, its prompt, model and stop sequence) is not modelled; its answer is the parameter `reply`. `server/cohere-client.ts`, which the route calls, is not part of this model: the route's advisory result for each file is a parameter.
- Logging (`console.log`/`console.error`), `async`/`await` and the HTTP framework are left out. The response is returned as a status and a body.
- Request validation with zod in the route (`z.object({ files }).parse`) is not modelled. It runs before the `try`, and the model starts from a validated list of files.
- ReplyParser.StaticAnalysis: a service call rejected with `null` or `undefined` is not modelled. The `catch` at server/services/agent.ts:205-207 then throws while reading `error.message`, and `analyzeCode` turns that into its `agent_error` result; the model's `ServiceFailed` always carries a value whose `message` is a string or absent.
- The inner `catch` of the reply parser, which produces `Error parsing analysis: …`, is not modelled. None of the parsing steps can throw on a string, so that branch cannot be reached.
- In the parser's finding pattern, `.` does not match `\r`, U+2028 or U+2029. The model lets every character into the message. This does not only change the message: when a message holds such a character, the pattern can only match after it, so the match starts later and the type changes too. For `a: x\ry: msg [E]` the source reads type `x\ry` and message `msg`; the model reads type `a` and message `x\ry: msg`.
- `toLowerCase` is modelled on ASCII letters only.
- `parseInt` on very long digit runs, which loses precision in floating point, is modelled as an exact natural number.
- `MemStorage` ids are unbounded integers, not JavaScript numbers.
- Aliasing between the agent's static result and its merged result is not modelled: `enhanceResults` pushes onto the array it shares with `staticAnalysis`, and the model builds a new value.
- The finding pattern requires the `[SEVERITY]` bracket, although the prompt (server/services/agent.ts:80-88) asks for suggestions without one. The model follows the pattern: findings without a bracket, including every suggestion written in the prompt's own suggestion format, are dropped.
- The route builds no metrics for a batch: `combinedAnalysis` (server/routes.ts:21-25) has none, and no per-file metrics are summed.
- Routes.OutputLastWins: `output` is a plain JavaScript object in the route, and assigning to its key `__proto__` changes the object's prototype instead of storing an entry; the model's map stores every key, so a file named `__proto__` has an entry in the model but not in the route.
- Routes.ImprovedCodeDomain: the same holds for the `improvedCode` accumulator: a suggestion for a file named `__proto__` is not recorded by the route, but is in the model.
- Routes.StoppedIffWriteFailed: advisory results are assumed to be well-formed lists of error and suggestion objects. `server/cohere-client.ts` is not part of this model; an entry that is not an object (such as `null`) would make the `improvedCode` reduce throw after every file was processed and answer 400, which this lemma does not cover.
- The UI components and the theme hook are outside the core.
- Schema.ParseLanguage: states only that a parsed language has the given name. Its round trip is stated by `Schema.LanguageEnum`.
