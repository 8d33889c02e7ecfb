# BizCase core in Dafny

BizCase is a browser tool that writes business case studies. A hosted language model does the
research, the writing and the critique. The application's own code does four things around it:

- it sequences the model calls and shows progress;
- it retries failed calls with exponential back-off;
- it runs bounded inspect-and-fix loops over the drafts;
- it renders the finished Markdown and keeps an undo/redo history of the document.

This project models that code and proves what it promises. Every call to the hosted model is
an oracle: a function parameter whose answer is either a value or a thrown error. So every
proof holds for every possible model answer.

The modules follow the repository's files:

- `Text` — the JavaScript string built-ins the code relies on: `trim` (ECMAScript white space
  and line terminators), `split`, `join`, `includes`, single-character `replace`, and
  `DeleteAll`, the global removal `replace(/\*\*/g, '')` that strips the asterisks of a
  caption.
- `Types` — the records of `types.ts`: the generation steps and state, the case data, uploaded
  files and search sources.
- `Retry` — `callWithRetry`. At most `retries` calls, with a wait of `baseDelay·2^i` after
  failed call `i`, and the last error rethrown. The waits are returned as values, since no
  clock is modelled.
- `Research` — `gatherInformation`. Three research calls build their parts the same way
  (system text, then each uploaded file). The web sources of their grounding chunks are
  collected. The dossiers are concatenated, and the sources are de-duplicated by URI.
- `Firewall` — the two inspect-and-fix loops (`runStrictFirewall` with four rounds,
  `generateAndAuditVisuals` with three) and `runFinalPolish`, which chains them. The
  inspector, the fixer and the stop flag are oracles that see the trace of calls made so far.
  The trace records every call: its prompt text, the errors found and the fix returned.
- `Chat` — `chatWithEditor`. It extracts the reply: the first non-empty text part, and the
  request of the last `request_refinement` call. A `request_refinement` call that comes without
  arguments makes the extraction throw, and the answer is then the apology.
- `Inline`, `Tables`, `Blocks` — `parseInline`, the table helpers with `TableRenderer`, and the
  line-by-line block scanner of `FormattedContent` in `components/CaseViewer.tsx`.
- `CaseViewer` — the component's history of snapshots (mount, the sync effect, undo, redo) as a
  class, and `executeRefine`.
- `Copilot` — the chat panel of `components/CaseCopilot.tsx` as a class. `handleSend` appends
  the user's message, sends the non-action history, and appends the answer. It also raises the
  refine request the answer carries.
- `App` — the workflow of `App.tsx` as a class: the topic, the uploaded files, the case data
  and the generation state. Each handler is a method that keeps the whole new state. The
  handler also returns the sequence of generation states it shows.

Where a handler shows several states while it awaits the services, the method returns them in
order. The lemmas prove that on the successful path the step only advances, the progress never
falls, and every percentage lies within 0..100.

## Model

| member | source | states |
|---|---|---|
| Text.Trim | components/CaseViewer.tsx:109 | the result has no white space at either end and is never longer than the input; it is empty exactly when the input is all white space, and otherwise it is the input less its leading and trailing white space |
| Text.TrimUnique | components/CaseViewer.tsx:109 | white space, then a trimmed middle, then white space, trims to that middle |
| Text.TrimTrimmed | components/CaseViewer.tsx:109 | trimming a trimmed string changes nothing (idempotence) |
| Text.TrimAfterWhitespace | components/CaseViewer.tsx:143-146 | leading white space does not change the trimmed result, so an indented list line trims like its unindented form |
| Text.TrimKeepsCharacters | components/CaseViewer.tsx:115 | every character of the trimmed string occurs in the input |
| Text.LeadingWhitespaceUnique | components/CaseViewer.tsx:109 | the leading white-space run is the unique prefix of white space followed by a non-white-space character or the end |
| Text.TrailingStartUnique | components/CaseViewer.tsx:109 | the trailing white-space run is uniquely determined in the same way |
| Text.Split | components/CaseViewer.tsx:104 | splitting at a separator gives one part more than there are separators, and no part contains the separator |
| Text.JoinSplit | components/CaseViewer.tsx:104 | joining the parts of a split with the separator gives back the string |
| Text.SplitJoin | components/CaseViewer.tsx:37-44 | splitting parts joined with a separator they do not contain gives back the parts |
| Text.SplitFree | components/CaseViewer.tsx:104 | a string without the separator splits into itself alone |
| Text.SplitPrefix | components/CaseViewer.tsx:104 | a separator-free head followed by the separator splits off as the first part |
| Text.AbsentFirstChar | App.tsx:137-138 | a string that lacks the first character of a pattern does not include the pattern |
| Text.ContainsSubFirstChar | App.tsx:137-138 | a string that includes a pattern contains the pattern's first character |
| Text.ContainsSubAt | App.tsx:137-138 | an occurrence at a position means the string includes the pattern |
| Text.ReplaceCharAbsent | components/CaseViewer.tsx:24-27 | replacing a character that does not occur changes nothing |
| Text.ReplaceCharAppend | components/CaseViewer.tsx:24-27 | a global single-character replace distributes over concatenation |
| Inline.EscapeAppend | components/CaseViewer.tsx:24-27 | the chained escaping distributes over concatenation |
| Inline.EscapeOne | components/CaseViewer.tsx:24-27 | the chained escaping maps one character to its entity (`&amp;`, `&lt;`, `&gt;`) or to itself |
| Inline.EscapeIsPerCharacter | components/CaseViewer.tsx:24-27 | escaping `&` first and then `<` and `>` is the same as replacing each character by its entity, so no entity is escaped twice |
| Inline.EscapeHasNoAngles | components/CaseViewer.tsx:24-27 | the escaped text contains neither `<` nor `>` |
| Inline.EscapeRoundTrip | components/CaseViewer.tsx:24-27 | unescaping the escaped text gives back the original text |
| Inline.EscapeKeepsOtherCharacters | components/CaseViewer.tsx:24-27 | a character outside `&<>` and the letters of the entities occurs in the escaped text exactly when it occurs in the input |
| Inline.FindClose | components/CaseViewer.tsx:29-31 | a found closing delimiter lies within the text, after the start of the search |
| Inline.FindCloseFound | components/CaseViewer.tsx:29-31 | the text at a found position is the closing delimiter |
| Inline.FindCloseFirst | components/CaseViewer.tsx:29-31 | no earlier position holds the delimiter (the lazy match), and for `.` no earlier character is a line terminator |
| Inline.MatchAt | components/CaseViewer.tsx:29-31 | a match has at least the pass's minimum content length and its closing delimiter inside the text |
| Inline.MatchAtFound | components/CaseViewer.tsx:29-31 | a match starts with the opening delimiter and its closing delimiter is present where the match says |
| Inline.RendererPassesAreTagPasses | components/CaseViewer.tsx:29-31 | the bold, italic and code passes each replace a delimiter by tags of the renderer's tag set |
| Inline.PassPreservesTokens | components/CaseViewer.tsx:29-31 | a pass keeps a text that splits into renderer tags and non-angle characters in that form |
| Inline.InlineHtmlTokenized | components/CaseViewer.tsx:23-32 | the output of `parseInline` always splits into the renderer's own tags and characters other than `<` and `>`, so user text can never inject markup; that the tags nest is not claimed |
| Inline.PlainTextOnlyEscaped | components/CaseViewer.tsx:23-32 | text without `*` and backtick is only escaped |
| Tables.SplitRow | components/CaseViewer.tsx:37-44 | a row gives one cell more than the bars inside its outer bars; each cell is trimmed and holds no bar |
| Tables.CleanCells | components/CaseViewer.tsx:35 | each cell is the trimmed part |
| Tables.JoinFree | components/CaseViewer.tsx:37-44 | parts joined by a separator holding no character `c` hold no `c` |
| Tables.SplitRowFormatRow | components/CaseViewer.tsx:37-44 | trimmed bar-free cells written as a row `\| a \| b \|` split back into the same cells |
| Tables.SplitRowNoBar | components/CaseViewer.tsx:37-44 | a line without a bar is a single trimmed cell |
| Tables.Width | components/CaseViewer.tsx:54-55 | the column count is at least the header's and every row's width, and it equals one of them |
| Tables.Pad | components/CaseViewer.tsx:57-60 | padding keeps the existing cells and appends only empty cells up to the width |
| Tables.Normalize | components/CaseViewer.tsx:57-60 | the padding loop computes `Pad` |
| Tables.MaxCols | components/CaseViewer.tsx:54-55 | the maximum loop computes `Width` |
| Tables.NormalizeRows | components/CaseViewer.tsx:63 | every body row is padded to the width |
| Tables.BodyRows | components/CaseViewer.tsx:52 | the body rows are the split lines after the header and the separator |
| Tables.RenderRows | components/CaseViewer.tsx:78-93 | every body row is padded and its cells rendered |
| Tables.RenderCells | components/CaseViewer.tsx:78-93 | one rendered cell per raw cell |
| Tables.RenderSplit | components/CaseViewer.tsx:54-98 | the normalizing steps after the split give the table the reference definition describes |
| Tables.TableRenderer | components/CaseViewer.tsx:48-98 | fewer than two lines render nothing; otherwise the table of the reference definition |
| Tables.RenderTableShape | components/CaseViewer.tsx:48-98 | the separator line never becomes a row; the table is rectangular, as wide as its widest row; every cell is the inline HTML of its raw cell or empty |
| Tables.TableOfShape | components/CaseViewer.tsx:54-93 | every row of the built table is padded to the common width, with the inline HTML of its cells |
| Tables.PadCells | components/CaseViewer.tsx:57-60 | a padded cell is the raw cell, or empty past the row's end |
| Tables.RenderTableCaption | components/CaseViewer.tsx:67-73 | a caption is shown exactly when it is non-empty, and then as given |
| Blocks.DigitRun | components/CaseViewer.tsx:131 | the digit run is the longest prefix of decimal digits |
| Blocks.RunEnd | components/CaseViewer.tsx:119-124 | the run ends at the first line from the start that does not belong to it |
| Blocks.TableLines | components/CaseViewer.tsx:119-124 | a table keeps one line per line it spans |
| Blocks.Mapped | components/CaseViewer.tsx:134-153 | item `k` of the list comes from line `a + k` |
| Blocks.StepAt | components/CaseViewer.tsx:106-217 | every step of the scan moves forward and stays within the lines |
| Blocks.TableStep | components/CaseViewer.tsx:112-126 | a table consumes at least its header and separator lines |
| Blocks.ListStep | components/CaseViewer.tsx:131-176 | a list consumes at least its first line |
| Blocks.FormattedContent | components/CaseViewer.tsx:100-221 | the scanning loop produces exactly the blocks of the recursive reference renderer |
| Blocks.ScanTable | components/CaseViewer.tsx:112-126 | the table branch produces the table step of the reference |
| Blocks.TableRows | components/CaseViewer.tsx:119-124 | the row loop stops at the first line without a bar after the separator, and it collects the lines before it |
| Blocks.CaptionBefore | components/CaseViewer.tsx:113-117 | the caption is the previous line's caption text when that line is a caption line |
| Blocks.ScanList | components/CaseViewer.tsx:131-176 | the list branch produces the list step of the reference |
| Blocks.ScanItem | components/CaseViewer.tsx:135-151 | one pass of the list loop tells a list line from any other and gives that line's item |
| Blocks.ScanLine | components/CaseViewer.tsx:179-212 | the single-line branches (headings, quote, caption, paragraph, blank) produce the block of the reference |
| Blocks.StepBlank | components/CaseViewer.tsx:209-215 | a line yields no block exactly when it is blank, and a blank line is consumed alone |
| Blocks.BlankFromAll | components/CaseViewer.tsx:209-215 | the recursive blank-tail predicate holds exactly when every remaining line is white space |
| Blocks.BlocksFromEmpty | components/CaseViewer.tsx:106-217 | the remaining lines render nothing exactly when they are all blank |
| Blocks.RenderEmptyIffBlank | components/CaseViewer.tsx:100-221 | a document renders no block exactly when every line is white space |
| Blocks.BlocksFromCount | components/CaseViewer.tsx:106-217 | there are never more blocks than lines |
| Blocks.TableBlockShape | components/CaseViewer.tsx:112-126 | a table keeps its trimmed header and the raw following lines; every line after the separator contains a bar; it stops at the first line without one; it carries the caption of the line above |
| Blocks.ListBlockShape | components/CaseViewer.tsx:131-176 | a list holds one item per consecutive list line, each parsed from its own line, and it stops at the first line that is not a list line |
| Blocks.ListMarkers | components/CaseViewer.tsx:165 | a bullet item shows a bullet; a numbered item shows its position in the block plus one, not the number written in the source |
| Blocks.ListLineSplits | components/CaseViewer.tsx:143-148 | a list line is its marker (`-`, `*` or digits and a dot), white space, then the item text, which starts with no white space |
| Blocks.MarkerSplit | components/CaseViewer.tsx:146-148 | cutting a line after its marker leaves at least one white-space character, then a text that starts with no white space |
| Blocks.CaptionTextNonEmpty | components/CaseViewer.tsx:203-206 | a caption line has non-empty caption text |
| Blocks.CaptionIsNoListLine | components/CaseViewer.tsx:131 | a caption line starts with `**`, so it is never taken for a bullet |
| Blocks.CaptionAttachesToTable | components/CaseViewer.tsx:113-117 | a caption line right above a table becomes that table's caption and is shown with it |
| Blocks.CaptionLineIsCaptionBlock | components/CaseViewer.tsx:203-206 | a caption line that does not itself start a table is a caption block of its own, also when it stands right above a table |
| Blocks.CaptionShownTwice | components/CaseViewer.tsx:106-206 | a caption line right above a table is shown twice: as a caption block, then as the caption of the table that follows |
| Blocks.BlocksFromTwo | components/CaseViewer.tsx:106-217 | two steps that each emit a block put those two blocks first, in order |
| Blocks.CaptionLineBlock | components/CaseViewer.tsx:203-206 | the single-line branch turns a caption line into its caption block |
| Blocks.HeadingLevels | components/CaseViewer.tsx:179-190 | `# `, `## ` and `### ` give headings of level 1, 2 and 3 with the rest of the line |
| Blocks.TableCellsTokenized | components/CaseViewer.tsx:78-93 | every header and body cell of a rendered table is tokenized inline HTML (the renderer's own tags and characters other than `<` and `>`; nesting is not claimed) |
| Blocks.StepHtmlTokenized | components/CaseViewer.tsx:106-217 | every block the scan emits holds only tokenized inline HTML (the renderer's own tags and characters other than `<` and `>`; nesting is not claimed) |
| Blocks.LineHtmlTokenized | components/CaseViewer.tsx:179-212 | every single-line block holds tokenized inline HTML (the renderer's own tags and characters other than `<` and `>`; nesting is not claimed) |
| Blocks.BlocksFromHtmlTokenized | components/CaseViewer.tsx:106-217 | all blocks from a line on hold tokenized inline HTML (the renderer's own tags and characters other than `<` and `>`; nesting is not claimed) |
| Blocks.RenderedHtmlTokenized | components/CaseViewer.tsx:100-221 | every block of any document holds only tokenized inline HTML (the renderer's own tags and characters other than `<` and `>`; nesting is not claimed) |
| CaseViewer.OperationsKeepValid | components/CaseViewer.tsx:243-264 | mount, sync, undo and redo keep the index inside the snapshots (or zero with none) |
| CaseViewer.MountRecordsFirst | components/CaseViewer.tsx:243-250 | mounting records a snapshot exactly when none is recorded and there is case text, and that snapshot becomes current |
| CaseViewer.SyncTruncatesAndAppends | components/CaseViewer.tsx:253-264 | a differing document keeps the snapshots up to the current one, drops the redo branch, appends the document and makes it current; an equal one changes nothing |
| CaseViewer.SyncBeforeMount | components/CaseViewer.tsx:253-256 | nothing is recorded before the first snapshot |
| CaseViewer.SyncIdempotent | components/CaseViewer.tsx:253-264 | syncing the same document twice records it once |
| CaseViewer.UndoRedoAtEnds | components/CaseViewer.tsx:408-428 | undo at the first snapshot and redo at the last are no-ops, and elsewhere they do move |
| CaseViewer.UndoRedoInverse | components/CaseViewer.tsx:408-428 | undo and redo never change the snapshots, and each undoes the other where it moves |
| CaseViewer.UndoThenSyncKeepsRedo | components/CaseViewer.tsx:408-417 | the sync that an undo triggers finds no difference, so the redo branch survives |
| CaseViewer.History.constructor | components/CaseViewer.tsx:239-240 | the history starts empty at index 0 |
| CaseViewer.History.Mount | components/CaseViewer.tsx:243-250 | the mount effect moves the state as `Mounted` says and keeps it valid |
| CaseViewer.History.Sync | components/CaseViewer.tsx:253-264 | the sync effect moves the state as `Synced` says and keeps it valid |
| CaseViewer.History.Undo | components/CaseViewer.tsx:408-417 | undo moves as `Undone` says and hands the restored snapshot to the document when it moved |
| CaseViewer.History.Redo | components/CaseViewer.tsx:419-428 | redo moves as `Redone` says and hands the restored snapshot to the document when it moved |
| CaseViewer.ExecuteRefine | components/CaseViewer.tsx:319-352 | the target defaults to the case text; a missing or empty target text changes nothing; a reply replaces the target text; a failure changes nothing and alerts unless it was a stop |
| CaseViewer.RefineChangesOnlyTarget | components/CaseViewer.tsx:319-352 | a refine never changes the text it does not target, nor any other field |
| Retry.Pow2 | services/geminiService.ts:28 | a power of two is at least 1 |
| Retry.CallWithRetry | services/geminiService.ts:20-32 | at most `retries` calls; each wait follows a failed call and is `baseDelay·2^i`; a success is the first successful call; a failure means every call failed and rethrows the last error |
| Retry.BackoffTotal | services/geminiService.ts:26-30 | the waits sum to `baseDelay·(2^n − 1)` |
| Retry.DefaultBackoff | services/geminiService.ts:20-30 | with the defaults the waits are 2000, 4000 and 8000 ms, 14000 ms in total |
| Research.PartsOf | services/geminiService.ts:329-349 | the request has the system text first, then one part per uploaded file |
| Research.BuildParts | services/geminiService.ts:329-349 | the part-building code produces `PartsOf` |
| Research.FilePartsCarryData | services/geminiService.ts:341-348 | a PDF becomes inline data with its type and payload, and a text file's data appears whole inside its text part |
| Research.ChunkSourcesExact | services/geminiService.ts:358-369 | exactly the chunks with a web reference become sources, each with an empty snippet |
| Research.WebSources | services/geminiService.ts:358-369 | the chunk loop produces `ChunkSources` |
| Research.SearchAndCollect | services/geminiService.ts:325-375 | one research call reports its message, returns its dossier section or "" when the call throws, and collects the chunk sources |
| Research.DedupSources | services/geminiService.ts:381-388 | the de-duplication loop produces `Dedup` |
| Research.UriSetIndex | services/geminiService.ts:381-388 | a URI is in the set of a list exactly when some source of the list carries it |
| Research.FirstIndex | services/geminiService.ts:381-388 | the first index of a URI is its earliest position, or the end when it is absent |
| Research.DedupUris | services/geminiService.ts:381-388 | the kept URIs are non-empty and unseen; they are exactly the non-empty URIs not seen before |
| Research.DedupDistinct | services/geminiService.ts:381-388 | no two kept sources share a URI |
| Research.DedupFirst | services/geminiService.ts:381-388 | each kept source is the first source that carries its URI |
| Research.DedupOrdered | services/geminiService.ts:381-388 | the kept sources keep their original order |
| Research.DedupProperties | services/geminiService.ts:381-388 | together: ordered, non-empty and distinct URIs, every non-empty URI covered, each source the first of its URI |
| Research.GatherInformation | services/geminiService.ts:316-394 | the three dimensions run in order; the context is the three dossiers concatenated; the sources are the de-duplicated collection, with distinct URIs covering every non-empty URI found |
| Firewall.Snippet | services/geminiService.ts:582 | a prompt carries a prefix of the text of at most 100000 characters, and the whole of a shorter one |
| Firewall.InspectFixLoop | services/geminiService.ts:603-628 | the inspect-and-fix loop computes the recursive reference `Loop` |
| Firewall.RunStrictFirewall | services/geminiService.ts:603-628 | the format firewall is the loop with four rounds |
| Firewall.GenerateAndAuditVisuals | services/geminiService.ts:656-680 | the chart audit is the loop with three rounds |
| Firewall.RunFinalPolish | services/geminiService.ts:839-851 | the firewall, then the chart audit of its result, on one trace |
| Firewall.LoopExtends | services/geminiService.ts:603-628 | the loop only appends to the trace it was given |
| Firewall.InspectionBound | services/geminiService.ts:603-628 | the loop inspects at most once per remaining round |
| Firewall.LoopResult | services/geminiService.ts:603-628 | the loop returns the last fixer output, or its input when nothing was fixed |
| Firewall.LoopThrows | services/geminiService.ts:603-628 | the loop throws exactly when its last call raised the stop flag or failed, and with that call's error |
| Firewall.InspectionsSnoc | services/geminiService.ts:614 | one more call adds one inspection exactly when it is an inspection |
| Firewall.LatestSnoc | services/geminiService.ts:624 | a successful fix becomes the latest text, and other calls leave it |
| Firewall.InspectionsChecked | services/geminiService.ts:609 | a stop check is not an inspection |
| Firewall.DisciplinedSnoc | services/geminiService.ts:608-625 | a call that follows the discipline extends a disciplined trace |
| Firewall.CheckedDisciplined | services/geminiService.ts:609 | a stop check keeps the trace disciplined |
| Firewall.InspectDisciplined | services/geminiService.ts:609-614 | a stop check that finds the flag down, then an inspection, keeps the trace disciplined |
| Firewall.FixDisciplined | services/geminiService.ts:621-624 | a fix of the text just inspected, with the errors just found, keeps the trace disciplined |
| Firewall.LoopDisciplined | services/geminiService.ts:603-628 | every service call follows a check that found the stop flag down; only the last call raises it or fails; each fix repairs the text just inspected with the non-empty errors just found; no prompt exceeds the snippet bound |
| Firewall.CleanDraftUnchanged | services/geminiService.ts:616-618 | a draft found clean by the first inspection comes back unchanged after one call |
| Firewall.StopFirst | services/geminiService.ts:609 | a stop flag already raised throws before any service call |
| Firewall.LoopSound | services/geminiService.ts:603-628 | the loop's guarantees together, for a loop that continues a disciplined trace |
| Firewall.PolishedProperties | services/geminiService.ts:839-851 | the final polish inspects at most seven times, keeps the discipline across both loops, returns the last fixer output, and throws exactly when its last call stopped or failed |
| Chat.Contents | services/geminiService.ts:530-533 | the request is the history followed by the user's message |
| Chat.FirstTextIndex | services/geminiService.ts:548 | `find` stops at the first part with a non-empty text, or at the end |
| Chat.ArgsMissingSnoc | services/geminiService.ts:555-561 | a reply has a refinement call without arguments exactly when its front has one or its last part is one |
| Chat.ToolCalls | services/geminiService.ts:547 | filtering the parts to function calls keeps every refinement call without arguments, and adds none |
| Chat.LastRefinementSnoc | services/geminiService.ts:555-566 | a later refinement call overrides the earlier ones |
| Chat.ToolCallsKeepRefinement | services/geminiService.ts:547 | filtering the parts to function calls does not change the last refinement |
| Chat.ExtractResponse | services/geminiService.ts:545-568 | the extraction code produces `Extracted`: it throws at a refinement call without arguments, and otherwise yields the text and the last request |
| Chat.ChatWithEditor | services/geminiService.ts:503-574 | a thrown model call, or an extraction that throws because a refinement call has no arguments, answers the apology with no request; otherwise the extracted response |
| Chat.LastRefinementIsLast | services/geminiService.ts:555-566 | when every refinement call has arguments, there is a request exactly when some part calls `request_refinement`, and it is the last such call's |
| Chat.ExtractedText | services/geminiService.ts:548-565 | the extraction throws exactly when some `request_refinement` call has no arguments; otherwise the text is the first non-empty part text, without one it is the placeholder when a refinement is requested, else empty, and a request always comes with text |
| Chat.NoPartsNoResponse | services/geminiService.ts:545-568 | a reply without parts gives an empty response, and does not throw |
| Copilot.MapTarget | components/CaseCopilot.tsx:67 | the target is the notes exactly when the request names `teaching_notes` |
| Copilot.Panel.constructor | components/CaseCopilot.tsx:25-29 | the panel starts with the greeting, empty input and not loading |
| Copilot.Panel.HandleSend | components/CaseCopilot.tsx:40-93 | a send leaves the panel state and events that `Sent` gives |
| Copilot.Panel.AppendReply | components/CaseCopilot.tsx:64-92 | the answer's events are appended as `ReplyEvents` says, and input and loading are untouched |
| Copilot.SentUnfold | components/CaseCopilot.tsx:40-93 | an unblocked send appends the trimmed user message and then the answer's messages, clears the input and ends not loading |
| Copilot.ReplyMessages | components/CaseCopilot.tsx:64-89 | a thrown error appends one apology; otherwise the action notice when a refinement is requested, then the text when it is non-empty |
| Copilot.MessagesOfAppend | components/CaseCopilot.tsx:45-89 | the messages of consecutive events are the messages of each part in turn |
| Copilot.SendBlocked | components/CaseCopilot.tsx:41 | blank input, or any input while loading, changes nothing and does nothing |
| Copilot.SendMessages | components/CaseCopilot.tsx:40-93 | the panel's messages after a send, in full, for a thrown error and for an answer |
| Copilot.ReplyRequests | components/CaseCopilot.tsx:64-80 | the answer raises a refine request exactly when it asks for one; then exactly one, right after the action notice, for the mapped target and instruction |
| Copilot.SendRequests | components/CaseCopilot.tsx:40-93 | the same for the whole send: user message first, action notice second, request third |
| Copilot.NonActionExact | components/CaseCopilot.tsx:50-51 | the history keeps exactly the non-action messages, in order |
| Copilot.HistoryOfMessages | components/CaseCopilot.tsx:50-55 | each history entry carries the role and text of its kept message |
| App.ExactlyOneView | App.tsx:283-292 | exactly one of the six views is shown in every state |
| App.ResearchMilestone | App.tsx:136-139 | the research messages map to progress 10, 20 and 35 |
| App.LineEnd | App.tsx:224 | the end of a line is its first line terminator, or the end of the text |
| App.LineEndAt | App.tsx:224 | any position with no terminator before it and a terminator or the end at it is the line end |
| App.BestSplit | App.tsx:224 | the greedy `\s+` gives back just enough to leave one non-terminator character for `(.+)` |
| App.MatchAtExact | App.tsx:224 | a heading match at a position exists exactly when some split works, and it captures from the last working split to the line's end |
| App.FirstMatchFirst | App.tsx:224 | the title regex finds the first matching position, and none exists when no position matches |
| App.DeeperHeadingNeverMatches | App.tsx:224 | a `##` line never matches |
| App.NoHeadingKeepsTopic | App.tsx:224-225 | without a level-one heading line the title is the topic |
| App.FirstLineHeading | App.tsx:224-225 | a first line `# Title` gives the trimmed title |
| App.BareHashTakesNextLine | App.tsx:224-225 | because `\s+` crosses a line break, a bare `#` line takes the next line as the title |
| App.BlankHeadingEmptyTitle | App.tsx:224-225 | a heading of only white space gives an empty title rather than the topic |
| App.ReadFileKind | App.tsx:69-88 | a PDF keeps its type and is not text; any other file becomes `text/plain` text; the name is kept |
| App.UploadedClassified | App.tsx:64-93 | each stored file comes from a picked file, classified as above, and none is invented |
| App.UploadedAll | App.tsx:64-93 | when every read succeeds, each picked file is stored in order |
| App.RemoveFileExact | App.tsx:99-101 | removing an index drops exactly that file; an index out of range changes nothing |
| App.Polish | services/geminiService.ts:696-697 | the polish runs the firewall over the cleaned rewrite |
| App.ProgressStates | App.tsx:136-139 | one shown state per progress message |
| App.ResearchShownOf | App.tsx:131-151 | research shows the start, the three progress states, distilling, then selection or the error |
| App.Approved | App.tsx:206-264 | drafting shows between one and five stages, and all five when it completes |
| App.Workflow.constructor | App.tsx:12-35 | the page starts with an empty topic, no files, empty case data, the idle state and no refinement running |
| App.Workflow.EditTopic | App.tsx:361 | typing sets the topic and nothing else |
| App.Workflow.HandleFileChange | App.tsx:59-97 | the readable picked files are appended, classified, after the existing files |
| App.Workflow.HandleRemoveFile | App.tsx:99-101 | the file at the index is removed |
| App.Workflow.ReportProgress | App.tsx:136-139 | a research message sets the message and its milestone progress |
| App.Workflow.ReportAll | App.tsx:135-140 | the progress callbacks show one state per message, the last of which stays |
| App.Workflow.Research | App.tsx:135-142 | the case gets the topic, the gathered context and the de-duplicated sources |
| App.Workflow.HandleStartResearch | App.tsx:127-153 | a blank topic does nothing; otherwise research, then objectives, with the shown states and the error state when the objectives fail |
| App.Workflow.HandleRefineObjectives | App.tsx:156-166 | new objectives replace the old ones on success; the flag is cleared in every case |
| App.Workflow.HandleObjectiveSelect | App.tsx:169-180 | records the objective, shows framework building, then the framework or the error state |
| App.Workflow.HandleRefineFramework | App.tsx:183-198 | a new framework replaces the old one on success; the flag is cleared in every case |
| App.Workflow.HandleUpdateFrameworkManual | App.tsx:201-203 | sets the framework and nothing else |
| App.Workflow.HandleApproveFramework | App.tsx:206-264 | drafting shows its stages; on success the case gets the extracted title, the case content and the notes; on failure the case is unchanged and the error state shows |
| App.Workflow.ShowFailure | App.tsx:260-263 | a drafting failure ends in the error state with the stages already shown |
| App.Workflow.HandleReset | App.tsx:266-280 | the topic, the files, the case data and the generation state return to their initial values |
| App.OnPathJoin | App.tsx:131-258 | two progressing state sequences joined at an advancing step make a progressing sequence |
| App.ResearchShownAt | App.tsx:131-151 | research shows progress 5, 10, 20, 35 and 45 while researching, then 50 for the selection or the error |
| App.ResearchShape | App.tsx:131-147 | the research progress values are percentages that never fall |
| App.ResearchShownProgress | App.tsx:131-151 | research progress is a percentage, never falls, and stays on the successful path |
| App.DraftShownProgress | App.tsx:206-262 | drafting progress is a percentage, never falls while drafting, and ends completed at 100 or in the error state |
| App.SelectShownProgress | App.tsx:169-180 | selection shows framework building at 55, then on failure the error state |
| App.SuccessfulPath | App.tsx:17-258 | from the idle state the successful path never moves a step back, never lowers the progress, and ends completed at 100 |

## Left out

- Firewall.Snippet: counts Unicode scalar values, while JavaScript's `substring` counts UTF-16
  code units. For text with characters outside the Basic Multilingual Plane the real prefix is
  shorter than the modelled one, and it can end in half of a surrogate pair.
- All calls to the hosted model are oracles. Their prompts are reduced to what the code passes
  on. Exceptions: the 100000-character snippets of the firewall, and the files in the research
  parts.
- `JSON.parse` of the inspector's answer is part of the inspector oracle. A malformed answer is
  the oracle's `Success(None)` and reads as the empty error list, as at
  services/geminiService.ts:588-592.
- The waits of `callWithRetry` are returned as values. `setTimeout` and the clock are not
  modelled. Inside the other oracles the retries are part of the oracle's answer.
- The progress messages on screen are not modelled: the `onStatus`/`onProgress` strings of the
  polish and chart loops, and the message updates at App.tsx:219, 237, 244 and 248. Only the
  research messages, which set the progress, are modelled.
- React state batching and stale closures are not modelled. A handler's intermediate
  `setGenState` writes are the `shown` sequence its method returns. Only the last write is the
  final state.
- `isRefiningObjectives` and `isRefiningFramework` are modelled only by their final values. A
  method runs to completion, so the `true` state while awaiting is not observable.
- Reading a file (`FileReader`, Base64) is an oracle per picked file.
- The API-key gate (App.tsx:38-55) and `localStorage` are left out. The handlers are modelled
  as they run once a key is set.
- These are not modelled because they are presentation and browser I/O: `getSelection`, the
  floating menus, printing with html2pdf, the settings dialog, scrolling, and the JSX output
  itself. The renderer's blocks hold what the JSX puts on screen.
- The stop button sets the stop flag, which is the `checkStop` oracle. `refineContent` itself
  is an oracle of `ExecuteRefine`.
- `handleFirewallCheck` of components/CaseViewer.tsx is left out as a UI handler outside the
  modelled core. It runs `runFinalPolish`, which is modelled as `Firewall.RunFinalPolish`, on the
  case text and then on the teaching notes. It hands each result to the parent's update
  callback and shows status messages.
- `chatWithEditor` embeds the case and notes in its system prompt. That prompt is part of the
  chat oracle.
- A failed read of an uploaded file is skipped without a message, as in the code. The console
  logging is left out.
- SearchSource fields that the code reads straight from the model reply (`title`, `uri`) are
  strings in the model, never `undefined`. An absent URI is the empty string, which the
  de-duplication skips, as JavaScript's falsy check does.
