# Content publisher, modelled in Dafny

This project models the core of an Obsidian plugin that publishes Markdown
notes into the content folder of a static-site project. For each note, the
plugin builds a YAML header from configurable *metadata formats*. Each format
is a name and a template whose `{{expr}}` spans are JavaScript expressions
over the note's file and frontmatter. The plugin then cuts the note's own
frontmatter off its text and writes `header + "\n" + body` to the destination
folder. Publishing runs as a batch of tasks. When the last task completes, the
template-processor cache is cleared and the number of failures and successes
is reported.

The modules follow the source files:

- `Results`: `Option` and `Result`.
- `JsText`: the JavaScript string semantics the plugin relies on:
  - the `\s` / `trim` whitespace set and the `.` line terminators;
  - `String.prototype.trim`;
  - `Array.prototype.join`.
- `Vault`: note files, frontmatter values, the metadata cache and the folder
  tree, as values.
- `Template` (src/template.ts):
  - `evalPart` and `evalTemplate`, with the regular expression `/{{(.*?)}}/g`
    read literally: lazy, stopping at line terminators;
  - the variable record;
  - `TemplateProcessor`, a class whose `variables` field `setVariable`
    updates in place;
  - the `MetadataTemplateProcessor` constructor, which writes the cached
    frontmatter back into the caller's record.
- `Metadata`: what both header builders share:
  - the metadata format entries;
  - the in-order evaluation of their templates, which stops at the first
    failure;
  - the `---\n…\n---\n` block;
  - the default formats of src/settings.ts.
- `Handlers` (src/handlers.ts):
  - the `NOTE_META` keys;
  - the header builder, whose entries pass through `.replace(/\s+\n/g, '\n')`
    and `.trim()`;
  - the frontmatter stripper `.replace(/^---[\s\S]+?---/, '').trim()`.
- `LegacyContentHandler` (src/content-handler.ts): the older header builder,
  which writes raw entries. Its stripper is the same expression as in
  src/handlers.ts and is modelled once, by `Handlers.BodyText`.
- `Publisher` (main.ts):
  - the `ContentPublisher` class, with its task counter, result counters and
    an event log of what it shows and requests;
  - the breadth-first collection of notes, with its "skip unmodified" rule;
  - the destination check and the source-folder check.

The JavaScript evaluator is a parameter `ev`. The host application's
operations are parameters of the methods that use them:

- reading a note;
- updating its frontmatter;
- building its header;
- `existsSync`.

## Model

| member | source | states |
|---|---|---|
| Template.EvalPart | src/template.ts:11-21 | the value of a span is the expression's defined value; an `undefined` result fails with the message naming the expression, and so does every blank expression when the variable names can be parameters; a variable name that cannot be a parameter fails every expression with a `SyntaxError`; a thrown error fails with its own message |
| Template.CloseAt | src/template.ts:24 | the lazy `(.*?)}}` ends at the first `}}` at or after the start, and only when no line terminator comes before it; when there is no end, every later `}}` has a line terminator before it |
| Template.SpanAt | src/template.ts:24 | a span found at the front starts with `{{` and ends at a `}}` no earlier than index 2 |
| Template.ParseRoundTrip | src/template.ts:24 | reading a template as kept characters and `{{expr}}` spans loses nothing: the pieces make up the template again |
| Template.ParsedSpansMatched | src/template.ts:24 | every span the scan finds is the shortest one: its expression holds no line terminator and no `}}`, and does not end in `}` |
| Template.EvalTemplateRendersParse | src/template.ts:23-27 | the replace pass equals substituting each span's value into the parsed pieces, left to right |
| Template.RenderFails | src/template.ts:17-26 | substitution fails exactly when some span fails, and then with the error of the first failing span |
| Template.RenderWithoutSpans | src/template.ts:23-27 | pieces without spans render to their own text |
| Template.EvalTemplateFails | src/template.ts:17-26 | `evalTemplate` throws exactly when one of the template's spans fails, with the first failing span's error |
| Template.BlankSpanFails | src/template.ts:13-19 | a template holding a blank span such as `{{ }}` always fails |
| Template.EmptySpanFails | src/template.ts:13-19 | a template starting with `{{}}` fails: with the message for the empty expression when the variable names can be parameters, with the `SyntaxError` otherwise |
| Template.ParseWithoutOpener | src/template.ts:24 | a template with no `{{` holds no span |
| Template.ParseWithoutCloser | src/template.ts:24 | a template with no `}}` holds no span |
| Template.TemplateWithoutSpanUnchanged | src/template.ts:23-27 | a template without `{{` or without `}}` evaluates to itself |
| Template.SpanFreeUnchanged | src/template.ts:23-27 | a template in which the expression matches nowhere evaluates to itself, whatever the variables and the evaluator |
| Template.LineBreakInBracesUnchanged | src/template.ts:24 | `{{a\nb}}` is not a span, because `.` does not match the line feed, so it is kept as written |
| Template.SingleSpan | src/template.ts:23-27 | a template that is exactly one span evaluates to that span's value, or fails as it fails |
| Template.NoteVariables.constructor | src/template.ts:30-33 | the variables record holds the file and the optional frontmatter |
| Template.TemplateProcessor.constructor | src/template.ts:5 | a processor starts from the variables it is given |
| Template.NoteVariablesAreParameters | src/template.ts:51-54 | the names of the record a metadata processor starts from, `file` and `frontmatter`, can both be parameters, so its blank expressions yield `undefined` |
| Template.TemplateProcessor.ForNote | src/template.ts:38-57 | a frontmatter the caller supplied is kept; without one, the cached frontmatter of the file is written back into the caller's record; the processor's variables are the file and that frontmatter |
| Template.TemplateProcessor.SetVariable | src/template.ts:7-9 | the named variable now holds the value; every other variable is kept and no other appears |
| JsText.Trim | src/handlers.ts:51 | `trim` yields the slice left after cutting the leading and trailing whitespace; it neither starts nor ends with whitespace |
| JsText.TrimKeepsNonSpace | src/handlers.ts:51 | trimming removes whitespace and nothing else |
| JsText.TrimIdempotent | src/handlers.ts:51 | trimming twice gives what trimming once gives |
| JsText.TrimBlankPrefix | src/handlers.ts:67 | whitespace in front of a text does not change its trim |
| JsText.TrimUnchanged | src/handlers.ts:51 | a text with no whitespace at either end is its own trim |
| JsText.TrimOf | src/handlers.ts:51 | a text without whitespace at its ends, with any whitespace around it, trims to exactly that text |
| Metadata.EvaluateFormats | src/handlers.ts:46-57 | the templates are evaluated in order; the whole succeeds exactly when every template does, with one value per format in format order; otherwise it fails with the error of a template that all earlier templates passed |
| Metadata.EvaluateFormatsFirstError | src/handlers.ts:46-57 | the error of the evaluation is exactly that of the first failing template |
| Metadata.EvaluateFormatsValues | src/handlers.ts:46-57 | when every template succeeds, the values are theirs, in order |
| Metadata.DefaultFormatsEvaluate | src/settings.ts:19-56 | under the nine default formats, `featured` is always the text `false`, and every other entry is the value of its single expression, failing as that expression fails |
| Metadata.BlockLines | src/handlers.ts:58 | split at line feeds, the header is `---`, one line per entry in order (one empty line when there are none), `---` and the empty text after the final line feed |
| Metadata.BlockDelimiters | src/handlers.ts:58 | the header starts with `---\n` and ends with `\n---\n`; with no entries it is `---\n\n---\n` |
| Metadata.LinesOfJoin | src/handlers.ts:58 | entries without line feeds, joined by `\n`, split back into the same entries |
| Handlers.CollapseRun | src/handlers.ts:50 | a whitespace run is rewritten to whitespace whose only line feed, if any, is its first character; it holds a line feed exactly when the run did; a run with no line feed after its first character is kept; otherwise it becomes one line feed followed by what stood after the run's last line feed |
| Handlers.CollapseSpaceBeforeNewline | src/handlers.ts:50 | after the global replace, no line feed is preceded by whitespace, and a text that starts with a non-whitespace character still starts with it |
| Handlers.CollapseExample | src/handlers.ts:50 | `a \nb` becomes `a\nb`: the whitespace before the line feed goes and the line break stays |
| Handlers.CollapseKeepsSkeleton | src/handlers.ts:50 | the replace keeps the line structure: the same non-whitespace characters in the same order, with a line break exactly where a whitespace run holding a line feed separated them |
| Handlers.SkeletonShape | src/handlers.ts:50 | the line structure of a text holds no whitespace but line feeds, and never two line feeds in a row |
| Handlers.SkeletonAppend | src/handlers.ts:50 | the line structures of two texts that meet at a non-whitespace character join into that of the whole |
| Handlers.SkeletonOfTrim | src/handlers.ts:51 | trimming drops only the line breaks before the first and after the last non-whitespace character |
| Handlers.CollapseKeepsNonSpace | src/handlers.ts:50 | the replace rewrites whitespace only: the non-whitespace characters stay, in order |
| Handlers.CollapseUnchanged | src/handlers.ts:50 | a text in which no line feed follows whitespace is left unchanged |
| Handlers.EntryShape | src/handlers.ts:49-51 | an entry has no whitespace at its ends or before a line feed, and holds exactly the non-whitespace characters of the name, `:` and the value, in order; it keeps every line break of `name: value` that stands between two non-whitespace characters |
| Handlers.EntryOfCleanLine | src/handlers.ts:49-51 | a `name: value` line that is already clean is written unchanged |
| Handlers.Entries | src/handlers.ts:46-57 | one entry per format, in format order, each built from that format's name and value |
| Handlers.FormatEntries | src/handlers.ts:46-57 | the loop fails with the first failing template's error, or yields one entry per format, in order |
| Handlers.PublishedYAML | src/handlers.ts:41-59 | with a processor whose frontmatter comes from the metadata cache, the header is the block of the formats' entries, or the first template error |
| Handlers.FenceFrom | src/handlers.ts:67 | finds the first `---` at or after a position, or shows there is none |
| Handlers.FrontMatterEnd | src/handlers.ts:67 | `/^---[\s\S]+?---/` matches only a text opening with `---`; the match ends at the end of the first `---` that starts at index 4 or later |
| Handlers.BodyText | src/handlers.ts:65-68 | the published body neither starts nor ends with whitespace |
| Handlers.BodyWithoutFence | src/handlers.ts:67 | a note that does not open with `---` is only trimmed, and keeps all its non-whitespace text |
| Handlers.SixDashesKept | src/handlers.ts:67 | `------` is not a frontmatter block, because at least one character must stand between the fences |
| Handlers.StripsPublishedHeader | src/handlers.ts:58-67 | the stripper removes exactly a header the builder wrote, when no entry holds `---`, and gives back the trimmed text after it |
| Handlers.RepublishKeepsBody | src/handlers.ts:58-67 | stripping the header of a published note gives back the body that was published |
| Handlers.JoinFenceFree | src/handlers.ts:58 | joining entries that hold no `---` with line feeds creates no `---` |
| LegacyContentHandler.RawEntries | src/content-handler.ts:22-24 | one raw `name: value` entry per format, in order |
| LegacyContentHandler.PublishedYAML | src/content-handler.ts:15-31 | the header is the block of raw entries, one per format in order, or the first template error |
| LegacyContentHandler.HeadersAgreeWhenClean | src/content-handler.ts:22-24 | the older and newer builders write the same header whenever every raw entry is already clean |
| LegacyContentHandler.RawEntryKeepsTrailingSpace | src/content-handler.ts:23 | the older builder keeps a value's trailing whitespace, which the newer one never writes |
| Publisher.RunBeforeLast | main.ts:79-86 | before the last completion of a batch of n tasks, the pending count is n minus the completions, the counters count the successes and failures so far, and the cache has not been cleared |
| Publisher.LastStep | main.ts:79-86 | the completion that brings the count to zero clears the cache, reports the final counts and resets the batch |
| Publisher.RunCompletes | main.ts:79-111 | once all n ≥ 1 tasks of a batch complete, the log holds one effect per note, then exactly one cache clear and the report of failures and successes; the batch is reset |
| Publisher.RunBatch | main.ts:209-216 | a batch started with `setTask(n)` and run to the end ends reset; it logs the cache clear and report only when it was non-empty |
| Publisher.Successes | main.ts:165-167 | the number of successes is at most the number of attempts |
| Publisher.LevelOrderCoversTree | main.ts:186-207 | the queue loop reaches every file below the note folder exactly once |
| Publisher.LevelOrderByLevels | main.ts:186-190 | the loop is breadth first: the files directly in the queue come first, in order, then everything reached from the next level |
| Publisher.DigitsValue | main.ts:196 | a text reads as a number exactly when it is a non-empty string of decimal digits |
| Publisher.DigitsValueOfDecimal | main.ts:196 | the decimal numeral of a number reads back as that number, so every digit counts by its position |
| Publisher.NumeralTimestampSkips | main.ts:193-197 | a `content-update-ts` stored as a numeral, even `"0"`, skips the note exactly when its number is not smaller than the modification time |
| Publisher.CollectFiles | main.ts:182-207 | the kept files and the skipped files are the files in the order the queue reaches them, split by the skip rule |
| Publisher.NothingSkippedWithoutRespect | main.ts:191 | without `respectModTs` every file is published and none is skipped |
| Publisher.NumericTimestampSkips | main.ts:193-197 | a numeric `content-update-ts` skips the note exactly when it is non-zero and not smaller than the modification time |
| Publisher.DateTextNeverSkips | main.ts:196 | a timestamp written as a date text compares as NaN, so the note is published again |
| Publisher.AnyThenMdShape | main.ts:245 | `.*\.md$` matches a text exactly when it ends in `.md` and has no line terminator before that |
| Publisher.InSourceFolderShape | main.ts:243-256 | a note is accepted exactly when its path starts with the text of the note folder setting and ends in `.md`, with no line break between them |
| Publisher.MissingFolderAccepted | src/utils.ts:14-20 | as written, the check accepts a folder that does not exist, while the corrected check refuses it |
| Publisher.AsWrittenIgnoresFileSystem | src/utils.ts:15 | as written, the check accepts exactly the non-empty paths, whatever the file system holds |
| Publisher.CorrectedCheckRefinesAsWritten | src/utils.ts:14-20 | the corrected check accepts a path exactly when the check as written does and the folder exists |
| Publisher.RefreshEvents | main.ts:125-142 | one effect per file, in order: the processor cached with the updated frontmatter, or the failure notice |
| Publisher.RefreshCachesSucceeded | main.ts:125-142 | a processor is cached for a file exactly when refreshing it succeeded; every failure is reported and none stops the loop |
| Publisher.SkipEvents | main.ts:198-201 | one skip notice per skipped note, in order |
| Publisher.Attempts | main.ts:214-216 | one publish attempt per collected note, in order, with the header built without a frontmatter and the note's published text |
| Publisher.ContentPublisher.constructor | main.ts:18-21 | a new plugin has no pending task, zero counters and an empty log |
| Publisher.ContentPublisher.ClearTemplateProcessor | main.ts:88-90 | the processor cache is cleared; the counters are untouched |
| Publisher.ContentPublisher.SetTask | main.ts:92-95 | the pending count is the given one and both counters are zero |
| Publisher.ContentPublisher.ClearTask | main.ts:97-100 | the pending count and both counters are zero |
| Publisher.ContentPublisher.NoticeResult | main.ts:102-111 | reports the failures and successes when something failed, otherwise that all notes were published; the state is untouched |
| Publisher.ContentPublisher.CheckTaskDone | main.ts:79-86 | one task fewer; at zero or below, the cache is cleared, the result reported and the counters reset |
| Publisher.ContentPublisher.JustPublishContent | main.ts:144-171 | exactly one counter goes up: success when header and body were both produced and the write requested, failure otherwise; then one `checkTaskDone` |
| Publisher.ContentPublisher.PublishSingleNote | main.ts:113-123 | when the frontmatter update succeeds, a batch of one runs: the attempt, the cache clear and a report of that one note; when it fails nothing happens |
| Publisher.ContentPublisher.RefreshContentFrontmatter | main.ts:125-142 | every file is refreshed in turn; a failure is reported and the loop goes on; the counters are untouched |
| Publisher.ContentPublisher.PublishAllNotes | main.ts:173-217 | an unusable destination is reported and nothing else happens; otherwise the collected notes are published as one batch, after the skip notices and the refresh, and the plugin ends reset |
| Publisher.ContentPublisher.PublishCollected | main.ts:179-216 | collects, skips, refreshes and publishes in that order; the log is the skip notices, the refresh effects and the batch's effects |
| Publisher.ContentPublisher.PublishEach | main.ts:214-216 | one `justPublishContent` per collected note, in order, with no frontmatter passed |
| Publisher.ContentPublisher.CheckProjectContentAbPath | main.ts:219-241 | the destination is accepted exactly when the corrected folder check passes; a refused one is reported, and an accepted one only when asked |
| Publisher.ContentPublisher.CheckNoteInSourcePath | main.ts:243-256 | a note is accepted exactly when its path starts with the text of the note folder setting and ends in `.md`; otherwise it is refused with a notice |

## Left out

- The JavaScript expression language run by `new Function` is not modelled: the evaluator is a parameter. The model itself fixes two outcomes: a variable name that cannot be a parameter makes the construction throw, and otherwise a blank body yields `undefined`.
- `Template.EvalPart`: a parameter name is an ASCII identifier that is not a reserved word. Identifiers with other Unicode letters or escapes are refused, and a name that is itself a parameter list such as `a, b` is refused although `new Function` would take it. The engine's wording of the `SyntaxError` is not modelled; the model uses the text `SyntaxError`.
- `Template.EmptySpanFails`: the message for the empty expression is promised only when the variable names can be parameters. The records the plugin builds always qualify (`Template.NoteVariablesAreParameters`).
- `Template.TemplateProcessor.constructor` keeps a copy of the variables record, where the source keeps the caller's object. Later changes the caller makes to that object are not seen by the model's processor. The only processor the plugin builds starts from the fresh copy `{...variables}`, so nothing shares it.
- The host application is parameters:
  - the vault read of a note's text;
  - `updateFrontmatter`;
  - the header builder that main.ts calls with a variables record;
  - `existsSync`.
- main.ts calls `getPublishedYAML` with a `{file, frontmatter}` record, while both handler files declare it over a file. That variant of `getPublishedYAML` is not part of this model. `Publisher` therefore takes the header builder as a parameter of the file and the optional frontmatter.
- `Publisher.ContentPublisher.JustPublishContent` receives the published text (`Publisher.PublishedText` of the read) as a parameter. Its callers pass exactly that.
- `Handlers.FormatEntries` forms the entries once all templates have evaluated, not one per iteration. Forming an entry cannot fail, so the result and the error are the same.
- Notices the plugin shows are logged only where they carry information the source branches on. The "Preparing to publish", "Got n notes" and per-note callback notices are not modelled, nor is the `Publish Error` notice before the rethrow.
- The `ErrorModal` of the destination check is not modelled.
- The `console.error` line of a failed publish (main.ts:168) is the `PublishFailed(file, message)` event; its prefix text is not modelled.
- Asynchrony is not modelled. `justPublishContent` is started without `await`, so attempts run one after another here. The model does not capture interleavings in which a later note's completion overtakes an earlier one. The write itself (`writeContentToAbPath`, `resolvePublishPath`) is a logged request.
- The template-processor manager's cache is reduced to "processor cached" and "cache cleared" events.
- Pinyin translation, the settings tab and the commands are not modelled.
- `Publisher.ContentPublisher.constructor`: the source leaves the counters unset until the first `setTask`; the model starts them at zero.
- `Publisher.AsNumber` is weaker: only texts of decimal digits (after trimming) read as numbers. Signs, decimals and exponents count as NaN, and numbers are integers.
- `Publisher.InSourceFolder` reads the note folder name literally. Regular-expression characters in the folder name are not interpreted.
- `Publisher.InSourceFolderShape` is a prefix test on the text of the folder setting, as the source's regular expression is: `notes` also accepts `notes2/a.md`. It is weaker than "the note lies in the folder" because of the literal reading above.
- `Publisher.ContentPublisher.CheckNoteInSourcePath` inherits both limits of `Publisher.InSourceFolder`.
- `Publisher.ContentPublisher.CheckProjectContentAbPath` and `Publisher.ContentPublisher.PublishAllNotes` use the corrected destination check (see Findings).

## Findings

| source | as written | input that shows it | evidently intended | confidence | as-written member | corrected member |
|---|---|---|---|---|---|---|
| src/utils.ts:15 | `!abPath.length && !existsSync(abPath)` refuses a path only when it is empty and does not exist, so every non-empty path passes | `publishToAbFolder = "/no/such/folder"` with no such folder is accepted, and notes are written to a folder that does not exist | refuse when the path is empty or when it does not exist, as the error text "The project content folder does not exist" says | high, not executed | Publisher.MissingFolderAccepted | Publisher.CorrectedCheckRefinesAsWritten |
