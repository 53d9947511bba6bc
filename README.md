# AI Text Transformer — a Dafny model of its core

The Joplin plugin "AI Text Transformer" rewrites the selected text of a note
with a chat-completion service. The model covers the plugin's one command,
`transformText`, and the pieces it is built from.

The command runs as follows:

- it asks for confirmation in a lazily created dialog;
- it asks for an instruction in a second lazily created dialog;
- it fills a two-placeholder prompt template with two JavaScript
  `String.prototype.replace` calls;
- it calls the completion service once through `doTransform`;
- it replaces the selection with whatever that promise resolves to.

The project has five modules:

- `JsString` (`js_string.dfy`) covers the string operations the command
  relies on:
  - `indexOf`;
  - `replace` with a string pattern: only the first occurrence is replaced,
    and the replacement patterns `$$`, `$&`, `` $` `` and `$'` are expanded
    as in the GetSubstitution step of ECMA-262, section 22.1.3.18.1;
  - `trim`, over the ECMAScript WhiteSpace and LineTerminator characters.
- `PromptTemplate` (`prompt_template.dfy`) holds:
  - the built-in `defaultFullPrompt`;
  - rendering as the two `replace` calls in sequence;
  - what rendering gives on templates of the default's shape.
- `CompletionClient` (`completion_client.dfy`) models the service's answer
  as a datatype:
  - a transport error, or a status with a body that either does not parse
    or parses with or without the `choices`/`usage` fields;
  - `callOpenAIMethod` as a settled promise;
  - `doTransform` as the record its promise resolves with, or `None` when it
    never resolves.
- `TransformWorkflow` (`transform_workflow.dfy`) holds:
  - the class `TextTransformer`. Its fields are the two module-level dialog
    handles and a log of the host calls made. Its method `TransformText`
    performs one run;
  - the host's answers, which are the method's scripted input
    (`HostAnswers`);
  - the run function `RunStep`/`Run`/`Runs`, which the method is proved to
    follow: `State() == Run(old(State()), h)`.
- `WorkflowProperties` (`workflow_properties.dfy`) proves what each run does
  and what holds across any sequence of runs from plugin load.

## Model

| member | source | states |
|---|---|---|
| JsString.IndexOf | src/index.ts:185-186 | the position found is an occurrence of the pattern, with no occurrence before it; none is found exactly when the string does not contain the pattern |
| JsString.Substitution | src/index.ts:185-186 | a replacement holding no `$` is inserted literally |
| JsString.SubstitutionPatterns | src/index.ts:185-186 | between `$`-free texts, `$$` expands to `$`, `$&` to the matched text, `` $` `` to the text before the match and `$'` to the text after it |
| JsString.ReplaceFirst | src/index.ts:185-186 | a string that does not contain the pattern comes back unchanged |
| JsString.ReplaceFirstAt | src/index.ts:185-186 | whenever the string is `pre + pat + post` with no occurrence starting in `pre`, the result is `pre`, the expanded replacement, then `post` verbatim, later occurrences included |
| JsString.ReplaceFirstPresent | src/index.ts:185-186 | when the pattern occurs, the string splits at its first occurrence so that `pre` does not contain the pattern, and the result is `pre + rep + post` for a `$`-free replacement |
| JsString.ReplaceFirstInSegment | src/index.ts:185-186 | replacing in `lead + x + rest`, with `lead` free of the pattern's first character and `x` holding the pattern, replaces inside `x` and leaves `lead` and `rest` alone, for a `$`-free replacement |
| JsString.Trim | src/index.ts:24 | the trimmed text neither begins nor ends with whitespace |
| JsString.TrimSpec | src/index.ts:24 | the trimmed text is a contiguous slice of the input, and everything cut from either end is whitespace |
| JsString.TrimUnique | src/index.ts:24 | splitting a text into whitespace, a middle with non-whitespace ends, and whitespace, the middle is what trimming returns |
| JsString.TrimIdempotent | src/index.ts:24 | trimming twice is trimming once |
| PromptTemplate.DefaultFullPromptShape | src/index.ts:13 | the built-in template is lead + `{0}` + middle + `{1}`, where the lead and the middle hold no `{`, and the middle does not begin with `1` or `}` |
| PromptTemplate.RenderTwoPlaceholders | src/index.ts:185-186 | on a template of that shape, for a `$`-free instruction and selection, an instruction without `{1}` gives exactly lead + instruction + middle + selection |
| PromptTemplate.RenderTwoPlaceholdersNested | src/index.ts:185-186 | substitution is sequential: for a `$`-free instruction and selection, an instruction holding `{1}` gets the selection in place of its own `{1}`, and the template's `{1}` stays in the prompt |
| PromptTemplate.RenderDefault | src/index.ts:183-186 | with the built-in template and a `$`-free instruction without `{1}` and a `$`-free selection, the prompt is its fixed lead text, the instruction, its fixed middle text (with `\r\n`), then the selection |
| PromptTemplate.RenderDefaultNested | src/index.ts:183-186 | with the built-in template and a `$`-free instruction and selection, an instruction holding `{1}` receives the selection, and the template's own `{1}` is sent unfilled |
| PromptTemplate.RenderWithoutPlaceholders | src/index.ts:185-186 | a template holding neither placeholder is sent unchanged |
| CompletionClient.CallOpenAI | src/index.ts:62-67 | fulfils with the parsed body exactly on status 200 with a body that parses; rejects on a transport error, on any other status and on an unparsable body |
| CompletionClient.DoTransform | src/index.ts:19-29 | never resolves exactly when a fulfilled body lacks the first choice's content or the `usage` object; a rejection resolves with the failure record; `success` holds exactly for a fulfilled call; on success, `result` is the trimmed content and `tokenCount` is `usage.total_tokens`, undefined when that field is absent; `result` never has surrounding whitespace |
| CompletionClient.FailureOutcomes | src/index.ts:21-22 | a transport error or any non-200 status resolves with `{success:false, result:"", tokenCount:0}` |
| CompletionClient.SuccessOutcome | src/index.ts:23-25 | a 200 with the fields present resolves with success, the trimmed first choice content and `usage.total_tokens` |
| CompletionClient.SuccessWithoutTokenTotal | src/index.ts:23-25 | a 200 whose `usage` has no `total_tokens` still resolves with success and the trimmed content; only the token count is undefined |
| CompletionClient.UnreadableBodyNeverResolves | src/index.ts:23-25 | a 200 without the first choice's content, or without `usage`, never resolves |
| CompletionClient.FailureIsEmpty | src/index.ts:22 | every resolved record whose `success` is false has an empty result and a token count of 0 |
| TransformWorkflow.TextTransformer.constructor | src/index.ts:11-12 | both handles start null and nothing has been called |
| TransformWorkflow.TextTransformer.EnsureConfirmDialog | src/index.ts:108-113 | the handle is created, given its question and given the Yes/No buttons only when it was null; otherwise it is reused unchanged |
| TransformWorkflow.TextTransformer.EnsureTransformDialog | src/index.ts:122-166 | the handle is created only when it was null; it then gets the form carrying the default value, `showAPanel` and `setFitToContent`, and no buttons |
| TransformWorkflow.TextTransformer.TransformText | src/index.ts:87-192 | the new handles and the appended host calls are exactly those of the run function for the host's answers, and the run ends as that function says |
| WorkflowProperties.ConfirmDialogSetUpWhileUnset | src/index.ts:108-113 | in a run, the confirmation dialog is created, filled and given buttons once each if its handle was null, otherwise never |
| WorkflowProperties.InstructionDialogSetUpAfterConfirmation | src/index.ts:116-166 | in a run, the instruction dialog is created, given its form, and accompanied by `showAPanel` and `setFitToContent` once each exactly when its handle was null and the user chose `yes`, otherwise never |
| WorkflowProperties.GuardsDecideTheCall | src/index.ts:115-191 | two dialogs are opened after `yes` and one otherwise; the completion is called once exactly when the user chose `yes`, then `ok`, and typed something, and never otherwise; the selection is replaced once exactly when, in addition, the promise resolves; a run is cancelled exactly when a guard fails |
| WorkflowProperties.CallEndsTheRun | src/index.ts:183-191 | a run past the guards ends with one completion call whose prompt is the template rendered with the `defaultTransform` setting and the selection; that call is followed by `replaceSelection` of the resolved result, or is last when the promise never resolves |
| WorkflowProperties.FailedCallClearsSelection | src/index.ts:189-191 | when the call is rejected, the run's last action replaces the selection with the empty string |
| WorkflowProperties.TypedTextOnlyGates | src/index.ts:178-186 | two runs that differ only in non-empty typed text make identical host calls and end identically |
| WorkflowProperties.HandlesPersist | src/index.ts:108-124 | after a run the confirmation handle is set; a handle that was set never changes; the instruction handle is set exactly when it already was or the user chose `yes` |
| WorkflowProperties.ReusedDialogsOnlyOpen | src/index.ts:108-169 | once both handles exist, a run only opens dialogs, calls the completion and replaces the selection |
| WorkflowProperties.FormOfARun | src/index.ts:129-137 | the only form body a run sets is the one embedding that run's `defaultTransform`, on a confirmed run that found the handle null |
| WorkflowProperties.RunsKeepSetUpOnce | src/index.ts:108-166 | over any sequence of runs, each set-up call has been made exactly once for each handle that is set, and never for one that is null |
| WorkflowProperties.DialogsSetUpAtMostOnce | src/index.ts:108-166 | from plugin load, over any sequence of runs, each dialog is created and set up at most once, and the confirmation dialog exactly once after the first run |
| WorkflowProperties.FormNeverRefreshed | src/index.ts:122-137 | once the instruction dialog exists, later runs never change its handle or the default value in its form |
| WorkflowProperties.FormKeepsFirstDefault | src/index.ts:121-137 | the instruction dialog exists exactly when some run was confirmed; every form body ever set carries the `defaultTransform` read by the first confirmed run |
| WorkflowProperties.HelloWorldPrompt | src/index.ts:183-186 | the built-in template with "more casual" and "hello world" gives lead + "more casual" + middle + "hello world" |
| WorkflowProperties.HelloWorldResult | src/index.ts:23-25 | a 200 whose content is "hi there" resolves with success and "hi there" |
| WorkflowProperties.HelloWorldRun | src/index.ts:87-192 | that run sends the rendered prompt and then replaces the selection with "hi there" |
| WorkflowProperties.ServerErrorRun | src/index.ts:62-67 | with a 500 response, no exception reaches `transformText`: the run completes, and the selection is overwritten with "" |

### Behaviour a reader might not expect

The model follows the code in each of these:

- The text put in place of `{0}` is the `defaultTransform` setting read at
  src/index.ts:121, not the typed instruction read at line 178. The typed
  text only decides whether the run goes on (`TypedTextOnlyGates`).
- On a failed call, the selection is replaced with the empty string
  (src/index.ts:22, 191). It is not left unchanged (`ServerErrorRun`).
- A 200 body without a first choice's content, or without `usage`, is not
  turned into a failure. The resolving callback at src/index.ts:24-25 throws
  before it resolves, the exception is never handled, and the `doTransform`
  promise never settles. The run therefore waits forever and never replaces
  the selection (`DoTransform`, `Suspended`). A `usage` without
  `total_tokens` does not throw: it resolves with an undefined token count
  (`SuccessWithoutTokenTotal`). A 200 body that fails to parse rejects, and
  so counts as a failure.
- The built-in template separates its parts with `\r\n`, not `\n`
  (src/index.ts:13).
- The instruction dialog's own button list is built but never set
  (src/index.ts:126). The model's instruction-dialog setup has no
  `setButtons`.

## Left out

- `fetch`, the request body, its headers and JSON parsing
  (src/index.ts:36-63). The service appears only as the `Outcome` datatype
  the host supplies.
- Joplin host calls are not modelled:
  - `data.get`, `settings.value`, `commands.execute('selectedText')` and the
    handles `dialogs.create` returns are scripted inputs (`HostAnswers`);
  - the reads themselves (the settings, the note lookup and
    `selectedText`) are not logged; their values enter as `HostAnswers`
    fields.
- The dialog HTML, CSS and embedded script (src/index.ts:129-156). The form
  is reduced to the default value it embeds at line 137.
- `showAPanel`'s panel, its click handler and `alert` (src/index.ts:71-85).
  Only the fact that it was invoked is logged.
- Unhandled exceptions are not modelled. The `.then` after `.catch`
  (src/index.ts:23-25) throws a TypeError, which nothing handles, in two
  cases. After a rejection, it reads fields of `undefined`; that does not
  change the failure record already resolved. On a 200 body without content
  or `usage`, it throws before resolving; the model records only the
  consequence, a promise that never settles. In neither case does the
  exception reach `transformText`.
- An undefined `tokenCount` is modelled as `None`. Other non-numeric values
  of `total_tokens`, and content that is a non-string value, are not
  distinguished; such content counts as absent.
- Re-entrant or concurrent triggering of the command, which would interleave
  its updates to the two shared handles.
- Console logging, `forceUpdate` and `len_selection`.
- Plugin registration, the settings schema, commands, toolbar, menus and the
  content script (src/index.ts:196-291). They are declarative setup.
- JavaScript strings are sequences of UTF-16 code units. The model uses
  Dafny's `char` sequences, so surrogate pairs are not modelled separately.
- `!transformText` is also true for an `undefined` form field. The model
  reduces the field to a string, where only `""` stops the run.
- PromptTemplate.RenderDefault: stated for instructions and selections
  without `$`. The general case is `JsString.Substitution` expanding the
  replacement patterns, and `ReplaceFirstAt` covers it. A selection `$&`,
  for instance, brings the placeholder `{1}` back instead of being inserted.
- PromptTemplate.RenderDefaultNested: stated for instructions and selections
  without `$`, for the same reason.
- PromptTemplate.RenderTwoPlaceholders: stated for instructions and
  selections without `$`, for the same reason.
- PromptTemplate.RenderTwoPlaceholdersNested: stated for instructions and
  selections without `$`, for the same reason.
- JsString.ReplaceFirstInSegment: stated for a replacement without `$`. With
  one, `` $` `` and `$'` would expand to text outside the segment.
