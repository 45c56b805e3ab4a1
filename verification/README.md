# Verified models of the terminal UI and the agent loop

A Dafny model of five files and proofs of what they are for:

- `packages/tui/src/tui.ts`: the differential renderer, and overlays (layout and compositing);
- `packages/tui/src/utils.ts`: the layer for text with escape codes in it: style tracking, wrapping, truncation, cutting by columns;
- `packages/tui/src/stdin-buffer.ts`: the splitter of terminal input;
- `packages/agent/src/agent-loop.ts` and `packages/agent/src/agent.ts`: the agent loop and its stateful wrapper.

`dafny verify dfyconfig.toml` checks everything. Nothing was executed.

## How the model is built

**Renderer** (`Terminal`, `Renderer`, `RendererRuns`). A terminal is a history of rows (scrollback, then the screen), a cursor and a column; it obeys the control functions the renderer writes, with the meaning they have in ECMA-48 (CR, LF that scrolls at the bottom, CUU and CUD clamped at the edges in sections 8.3.22 and 8.3.19, EL in 8.3.41, ED in 8.3.39). Class `TUI` has the source's fields, and `DoRender` drives the terminal through the source's six paths. A line is opaque text, never empty after the reset suffix and never wider than the screen. `Displays` also says that no relative move was ever clamped. `System`, `Event` and `Next` turn the methods' contracts into a transition system, so that the theorems speak of every run of renders, forced renders, resizes and changes of the `clearOnShrink` option. `Clears` holds the guards under which a render clears, read before it; `Next` says that exactly then everything is printed again. The simple form is `ClearAndPrint`.

**Text** (`Style`, `AnsiCodes`, `StyledText`, `Tokens`, `Wrapping`, `Truncation`, `Columns`, `Overlay`). A text is a sequence of codes and grapheme clusters, each cluster with its width and kind, as segmentation and the width tables give them. The meaning of a code is what the source's tracker does with it (SGR is section 8.3.117 of ECMA-48). `Cells` is what a text displays: each character with the style and hyperlink it is shown in. `Boundary` says where a text may be broken, from its characters; `CutAt` says of wrapped lines at which items of the text they begin, that each cut was needed, and, code by code, what each line is. What the lines show is derived from that. `AnsiCodes` is the level below, where codes are characters.

**Input** (`EscapeSequences`, `EscapeSequenceLaws`, `StdinBuffer`, `StdinBufferLaws`). The splitter works on UTF-16 code units, as the source does; the surrogates, which a Dafny character cannot be, are stood for by characters from U+10000 on (`UnitOf`). `Extract` and `Processed` say what the loops and the class compute, and the laws are about them.

**Agent** (`AgentEvents`, `AgentEventLaws`, `AgentQueue`, `AgentTools`, `MarkerGate`, `AgentLoop`). The provider, tools, hooks and users are arbitrary choices, and what other tasks may do while the loop awaits (abort, queue, withdraw, change a queue's mode) is `Agent.Await`. `Advance` is a monitor for the protocol, written without reference to the loop: it reads a log of the emitted events and of six internal steps (polls of the queues, the request to stop, the sight of an abort, the dispatch of a batch, preparation and execution of a call). The methods of `Run` are the loop's functions; each is proved to log only what the monitor accepts, and to keep the queues accounted for: what left each queue is what the log says was polled from it, and without a withdrawal nothing that was offered disappears. The laws hold for every accepted log. A run may be endless, so `RunLoop` gets a number of turns and says whether it finished; every prefix of a run is a prefix of such a log.

## What the proofs found

- Cutting the input after an emitted `ESC ESC` and before one of `[ ] O P _` changes what is read; no other cut does (`ChunksDoNotMatter`).
- A frame that does not repeat what already scrolled off leaves stale rows in the scrollback, unless the render clears, which its guards tell beforehand; this is the only way to lose exactness (`RenderKeepsExact`). A run that does: two lines on a screen of one row, then the first of them changes (`ChangedHistoryIsStale`).
- `sliceWithWidth` emits the codes at its left edge before the older ones, so a slice from the middle of a line can show the wrong style (`SliceReopensLink`); it is right exactly when the two orders come to the same (`SliceKeepsStyle`), which they do for every slice from column 0 and whenever no code stands between the edge and the first character after it (`CleanEdgeKeepsStyle`).
- The resets of `truncateToWidth` do not close a hyperlink: with an ellipsis of plain characters the result ends plain if and only if no link is open where the text was cut (`TruncationEndsPlain`); otherwise the link runs on into what follows (`TruncationLeavesLinkOpen`).
- Input that is unfinished when a paste marker arrives is dropped, an Escape key press for one (`KeysBeforeAPaste`, `EscapeBeforeAPasteIsLost`).
- A key reported in the Kitty protocol and then sent as text is reported once only up to U+FFFF; beyond, the duplicate arrives as two code units, which are both passed on (`KittyDuplicateIsDropped`).
- A tool that must run alone is recognised by its exact name only, although a call also finds its tool in another case or by an alias. The option's documentation promises it for the tool (`packages/agent/src/types.ts:398`); the model follows the code (`SequentialToolsAreSeenByName`, `OtherCaseEscapesTheSequence`).

## Model

| member | source | states |
|---|---|---|
| Renderer.TUI.DoRender | packages/tui/src/tui.ts:1259-1683 | After any render, whichever path it took: screen row r shows line top + r of the frame or is blank, the cursor row is the remembered one minus top, the last line is visible and no move was clamped. If the size changed, or the option is on and the frame, without overlays, is shorter than the longest rendered and does not move the viewport up, the scrollback was rebuilt from the lines above top; otherwise it gained exactly the lines that scrolled off, or is untouched, the last only if the frame does not repeat what is above the viewport |
| Renderer.TUI.DifferentialRender | packages/tui/src/tui.ts:1424-1526 | The comparing part of a render, for any two line lists: the frame is on display, and the scrollback is never rebuilt |
| Renderer.TUI.FullRender | packages/tui/src/tui.ts:1289-1334 | With clearing from any terminal at all, without clearing from a clean one: the frame is displayed, aligned with its end. With clearing the scrollback is exactly the lines above; without, it gained exactly those |
| Renderer.TUI.ViewportRender | packages/tui/src/tui.ts:1335-1371 | Repaints the screen only: the scrollback gains exactly what scrolls off, and if the frame does not repeat history the viewport may move up over a scrollback that stays |
| Renderer.TUI.RangeRender | packages/tui/src/tui.ts:1527-1683 | Painting only the changed lines leaves every row showing its line |
| Renderer.TUI.DeletedTail | packages/tui/src/tui.ts:1461-1508 | Erasing only the rows of lines that are gone leaves every row showing its line; the fallback for more deleted lines than rows is dead code |
| Renderer.TUI.PositionHardwareCursor | packages/tui/src/tui.ts:1690-1732 | The cursor goes to the requested row and column if that row is visible, no row changes, and the remembered row stays true |
| Renderer.TUI.ForceRender | packages/tui/src/tui.ts:717-739 | Forgets the last render, so that the size counts as changed, under which the next render must clear and rebuild the scrollback |
| Renderer.TUI.SetClearOnShrink | packages/tui/src/tui.ts:362-364 | Changes the option and nothing else |
| Renderer.TUI.Remember | packages/tui/src/tui.ts:1676-1682 | The shared end of all paths keeps the frame on display while it places the cursor |
| Renderer.FindChangedRange | packages/tui/src/tui.ts:1424-1452 | The first and last line that differ: nothing differs outside, both ends do, and -1 only if the lists are equal |
| Renderer.FullRenderBuffer | packages/tui/src/tui.ts:1289-1315 | The buffer that prints all lines, run on the terminal, displays them aligned with the end and makes the lines above the scrollback |
| Renderer.ViewportBuffer | packages/tui/src/tui.ts:1346-1362 | The buffer that repaints the screen from a line on, run on the terminal: rows, cursor and scrollback |
| Renderer.DeletedTailBuffer | packages/tui/src/tui.ts:1464-1500 | The buffer that erases the deleted lines and moves back, run on the terminal: rows and cursor, with no move clamped |
| Renderer.RangeBuffer | packages/tui/src/tui.ts:1527-1633 | The buffer that moves to the change, paints it, erases old lines below and moves back: rows, cursor and scrollback; the scroll to the target row never happens |
| Renderer.RangeOnScreen | packages/tui/src/tui.ts:1531-1545 | In sync, the rows that the change leaves alone show the new lines already |
| Renderer.PaintedShows | packages/tui/src/tui.ts:1554-1583 | Painting a stretch of lines over a screen whose other rows are right displays all lines, scrolled no more than needed |
| RendererRuns.SimpleForm | packages/tui/src/tui.ts:1289-1334 | Clearing and printing everything shows the last screenful and puts every earlier line in the scrollback |
| RendererRuns.FastAgreesWithSimple | packages/tui/src/tui.ts:1259-1683 | A render that ends aligned with the end of the lines shows exactly the rows the simple form shows |
| RendererRuns.StepKeepsInvariant | packages/tui/src/tui.ts:1269-1273 | Every event keeps the invariant: the renderer knows the terminal unless the size changed or a redraw was forced |
| RendererRuns.RunsDisplayTheirFrames | packages/tui/src/tui.ts:1259-1683 | Over every run of renders, forced renders, resizes and option changes, each render puts its frame on display, cursor included, and no relative move is ever clamped |
| RendererRuns.RenderKeepsExact | packages/tui/src/tui.ts:1335-1421 | From an exact scrollback, or from any when the guards for clearing hold: the scrollback ends exact if and only if these guards hold or the frame repeats what had scrolled off |
| RendererRuns.RunsKeepScrollbackExact | packages/tui/src/tui.ts:1259-1683 | Over every run of renders, forced renders, resizes and option changes whose renders each clear or repeat what scrolled off, every render leaves scrollback and screen together as the lines, each once and in order, then blanks |
| RendererRuns.SizeChangeRebuilds | packages/tui/src/tui.ts:1397-1411 | A forced render, and the first one after a resize, leaves screen and scrollback as the simple form would, whatever the terminal held |
| RendererRuns.ChangedHistoryIsStale | packages/tui/src/tui.ts:1335-1371 | A run from the start that loses exactness: the line that scrolled off changes, and every terminal that the render may leave holds it as it was |
| RendererRuns.SizeIsNoticed | packages/tui/src/tui.ts:1263-1264 | After a render the size counts as changed exactly if it is another one |
| RendererRuns.ShrinkingClears | packages/tui/src/tui.ts:1405-1421 | A frame shorter than the last one clears exactly if the option is on and its end is not above the viewport; with overlays or without the option nothing but a change of size clears |
| RendererRuns.ClearsForAShorterFrame | packages/tui/src/tui.ts:1413-1421 | Over every run: without a change of size, a render clears only for a frame that is shorter than an earlier one |
| RendererRuns.ExactIsSimple | packages/tui/src/tui.ts:1259-1683 | An exact, aligned render leaves screen and scrollback as the simple form would |
| EscapeSequences.ExtractCompleteSequences | packages/tui/src/stdin-buffer.ts:193-256 | The loop over the buffer computes the splitting the laws are about |
| EscapeSequences.NextLength | packages/tui/src/stdin-buffer.ts:201-249 | One turn of the loop finds the first key of the buffer, or that it is unfinished |
| EscapeSequences.FindSequenceEnd | packages/tui/src/stdin-buffer.ts:205-240 | The inner loop finds the shortest complete prefix, if there is one |
| EscapeSequenceLaws.ExtractionIsLossless | packages/tui/src/stdin-buffer.ts:193-256 | The sequences and the remainder, put together, are the buffer |
| EscapeSequenceLaws.ExtractionIsMinimal | packages/tui/src/stdin-buffer.ts:193-256 | Each piece is a character, a lone ESC or a complete sequence with no complete proper prefix; no prefix of the remainder is complete |
| EscapeSequenceLaws.RemainderIsStable | packages/tui/src/stdin-buffer.ts:193-256 | What was left over is left over again |
| EscapeSequenceLaws.ChunksDoNotMatter | packages/tui/src/stdin-buffer.ts:193-256 | Two chunks read one after the other give what they give at once, if and only if the cut does not split an emitted ESC ESC from the start of a sequence |
| EscapeSequenceLaws.EscEscCut | packages/tui/src/stdin-buffer.ts:209-231 | At that cut the two readings do differ |
| EscapeSequenceLaws.CsiEndsAtFinalByte | packages/tui/src/stdin-buffer.ts:85-127 | Where a control sequence ends, and only there: an old mouse report after three more characters, an SGR mouse report with its payload, any other at its first byte in the range of section 5.4 of ECMA-48 |
| EscapeSequenceLaws.MousePayloadShape | packages/tui/src/stdin-buffer.ts:101-122 | The test for SGR mouse reports accepts exactly three numbers and an M or m |
| EscapeSequenceLaws.ControlStringEndsAtTerminator | packages/tui/src/stdin-buffer.ts:129-183 | ESC ] ends just after the first BEL or ESC backslash, ESC P and ESC _ just after the first ESC backslash, and only there |
| EscapeSequenceLaws.ShortSequencesEnd | packages/tui/src/stdin-buffer.ts:66-79 | ESC O ends after one character more; ESC and any other character are a sequence of two |
| EscapeSequenceLaws.FirstKeyEnds | packages/tui/src/stdin-buffer.ts:193-256 | For every buffer and kind of key: the first piece has n characters if and only if the characters of the buffer say so, and the rest is split in the same way |
| StdinBuffers.StdinBuffer.Process | packages/tui/src/stdin-buffer.ts:288-396 | The method computes the specification, terminates through its recursion, and keeps: in paste mode nothing is buffered and no end marker is in the paste, otherwise the paste is empty and only an unfinished sequence is buffered, with a flush scheduled exactly then |
| StdinBuffers.StdinBuffer.ProcessBytes | packages/tui/src/stdin-buffer.ts:295-307 | Bytes are processed as their decoding, a single one above 127 as ESC and the byte without its high bit |
| StdinBuffers.StdinBuffer.StartPaste | packages/tui/src/stdin-buffer.ts:346-378 | Emits what precedes the start marker and collects the rest |
| StdinBuffers.StdinBuffer.FinishPaste | packages/tui/src/stdin-buffer.ts:316-336 | At the first end marker: one paste event, then the tail as new input |
| StdinBuffers.StdinBuffer.SplitInput | packages/tui/src/stdin-buffer.ts:380-396 | Emits the complete sequences and keeps the rest |
| StdinBuffers.StdinBuffer.EmitDataSequence | packages/tui/src/stdin-buffer.ts:398-407 | Emits a sequence unless it repeats the Kitty key just reported |
| StdinBuffers.StdinBuffer.Flush | packages/tui/src/stdin-buffer.ts:409-425 | Gives up the partial sequence as it is |
| StdinBuffers.StdinBuffer.OnTimeout | packages/tui/src/stdin-buffer.ts:387-395 | When the timer fires the partial sequence is emitted once, as it is, and nothing stays buffered or scheduled |
| StdinBufferLaws.ProcessedSettles | packages/tui/src/stdin-buffer.ts:288-396 | Every chunk, from every settled state, ends in a settled state |
| StdinBufferLaws.PasteInAnyChunks | packages/tui/src/stdin-buffer.ts:316-336 | However the rest of a paste is cut, it is one event with the text up to the first end marker, and then what the tail does as input on its own |
| StdinBufferLaws.BracketedPasteInAnyChunks | packages/tui/src/stdin-buffer.ts:346-378 | The same for a whole paste, with the cuts anywhere, inside the start marker too, and whatever Kitty key was awaited |
| StdinBufferLaws.KeysBeforeAPaste | packages/tui/src/stdin-buffer.ts:346-378 | The keys before a start marker are events of their own, then the paste is read as if it came alone; of the text before the marker exactly the unfinished part is lost |
| StdinBufferLaws.EscapeBeforeAPasteIsLost | packages/tui/src/stdin-buffer.ts:346-357 | So an Escape key press in the same chunk as a paste is not reported |
| StdinBufferLaws.OrdinaryInputInTwoChunks | packages/tui/src/stdin-buffer.ts:380-396 | Ordinary input may be cut anywhere the splitter allows, with the same events and state as at once |
| StdinBufferLaws.OrdinaryInputInAnyChunks | packages/tui/src/stdin-buffer.ts:380-396 | The same for any number of such cuts |
| StdinBufferLaws.KittyDuplicateIsDropped | packages/tui/src/stdin-buffer.ts:398-407 | A key reported in the Kitty protocol and sent again as text is one event if and only if its text is one code unit; a surrogate pair comes through as two more events |
| StdinBufferLaws.OtherCharacterIsKept | packages/tui/src/stdin-buffer.ts:398-407 | Any other code unit after the key is an event of its own |
| StdinBufferLaws.KittyIsAwaitedOnce | packages/tui/src/stdin-buffer.ts:398-407 | The character is dropped neither a second time nor after another sequence |
| StdinBufferLaws.OtherInputIsReported | packages/tui/src/stdin-buffer.ts:398-407 | Where no Kitty key is involved, every sequence is an event, in order |
| StdinBufferLaws.KittyShape | packages/tui/src/stdin-buffer.ts:185-191 | A character is awaited exactly after a sequence of one of three forms whose code point is printable |
| StdinBufferLaws.UnmarkedPasteIsTwoLines | packages/tui/src/stdin-buffer.ts:25-25 | Input counts as a paste without markers exactly if it has no escape and a line break between two other characters |
| StdinBufferLaws.TwoLinesAreOnePaste | packages/tui/src/stdin-buffer.ts:338-344 | Such input is one paste event with all of it but the line breaks at its end, and nothing is left waiting |
| StdinBufferLaws.HighByteIsAlt | packages/tui/src/stdin-buffer.ts:295-307 | A byte with the high bit is one event, ESC and its character, unless that begins a longer sequence |
| Style.AnsiCodeTracker.Process | packages/tui/src/utils.ts:404-536 | The tracker changes its fields step by step as the meaning of the code says, which the laws below state field by field |
| Style.SgrAttributes | packages/tui/src/utils.ts:464-516 | For every style and parameter: bold, dim, italic and underline, each with what turns it on and off |
| Style.MoreSgrAttributes | packages/tui/src/utils.ts:464-516 | The same for blink, inverse, hidden and strikethrough |
| Style.SgrColors | packages/tui/src/utils.ts:517-536 | For every style and parameter: which set and which reset the foreground and the background, and that no parameter touches the hyperlink |
| Style.ColorsUndo | packages/tui/src/utils.ts:517-532 | 39 undoes every foreground color and 49 every background color, and neither the other |
| Style.BoldAndDimUndone | packages/tui/src/utils.ts:464-516 | 21 undoes bold only, 22 bold and dim, and nothing else changes |
| Style.ItalicAndUnderlineUndone | packages/tui/src/utils.ts:464-516 | 23 and 24 undo 3 and 4, and nothing else changes |
| Style.BlinkAndInverseUndone | packages/tui/src/utils.ts:464-516 | 25 and 27 undo 5 and 7, and nothing else changes |
| Style.HiddenAndStrikethroughUndone | packages/tui/src/utils.ts:464-516 | 28 and 29 undo 8 and 9, and nothing else changes |
| Style.ExtendedColors | packages/tui/src/utils.ts:436-462 | An extended color takes three or five parameters, sets its field to all of them, and the parameters after it are read on |
| Style.ParametersInOrder | packages/tui/src/utils.ts:430-435 | The parameters of one code act one after the other, from the left |
| Style.ApplyKeepsReachable | packages/tui/src/utils.ts:404-536 | What every tracker state keeps: colors are the parameters of one standard or extended color, hyperlinks have an address |
| Style.ActiveCodesRestore | packages/tui/src/utils.ts:558-576 | The active codes of any reachable style bring it back from a plain style or any part of it |
| Style.LineEndResetCloses | packages/tui/src/utils.ts:600-609 | The line-end codes turn off underline and hyperlink and nothing else |
| AnsiCodes.SgrReadsBack | packages/tui/src/utils.ts:311-357 | A printed SGR code is found again at its length and read with its parameters |
| AnsiCodes.LinkReadsBack | packages/tui/src/utils.ts:359-381 | A printed hyperlink is found again and read with its parameters, address and terminator |
| AnsiCodes.ExtractedIsPlain | packages/tui/src/utils.ts:311-385 | Every code found in any text prints back and reads back |
| AnsiCodes.ControlsAreFound | packages/tui/src/utils.ts:317-322 | A control sequence is found up to its first m, G, K, H or J, and not at all without one |
| AnsiCodes.StringsAreFound | packages/tui/src/utils.ts:324-348 | A command string is found up to the first BEL or ESC backslash, and not at all without one |
| AnsiCodes.NothingElseIsFound | packages/tui/src/utils.ts:311-357 | Nothing else is found to be a code |
| AnsiCodes.TrackKeepsPrintable | packages/tui/src/utils.ts:612-623 | Every style the tracker reaches on any text can be printed |
| AnsiCodes.FormatStyleRestores | packages/tui/src/utils.ts:558-576 | A printed style, scanned as text, restores all attributes, colors and the hyperlink |
| AnsiCodes.PrintingAndParsingUndo | packages/tui/src/utils.ts:311-592 | For every text: printing the style after it and reading that back gives the same style |
| Tokens.SplitIntoTokensWithAnsi | packages/tui/src/utils.ts:628-702 | The tokens put together are the line; each is a word, blanks or one CJK character, with its codes in front; no two neighbours are both words or both blanks |
| Tokens.TokensAreRuns | packages/tui/src/utils.ts:628-702 | Every token is a whole run of the text: it begins and ends where the characters on both sides are not joined, and nowhere inside |
| Wrapping.BreakLongWord | packages/tui/src/utils.ts:837-904 | Cuts a run that is wider than a line only where the next character does not fit, and each piece is exactly the items between two cuts with the codes that bring back and close its style |
| Wrapping.WrapSingleLine | packages/tui/src/utils.ts:740-819 | A line that fits is left as it is; otherwise each cut was needed, each output line is exactly the items between two cuts without blanks at its end, opened and closed by the codes of its style, and the lines show the text (`WellWrapped`) |
| Wrapping.CutsAreNeeded | packages/tui/src/utils.ts:763-807 | A line ends only where the next run, with the blanks before it, does not fit on it any more, and inside a run only if that run is wider than a line |
| Wrapping.BlanksAreDropped | packages/tui/src/utils.ts:796-799 | No line after the first begins with blanks that could have been dropped at the cut |
| Wrapping.WrappedWell | packages/tui/src/utils.ts:740-819 | Lines that are cut where nothing more fits show the text: only blanks at their ends are lost, every character has its style, all but the last end without underline and hyperlink, and widths are bounded |
| Wrapping.WrapTextWithAnsi | packages/tui/src/utils.ts:715-738 | For any text: every input line is wrapped so, in the style in which the one before it ended; every output line shows a stretch of the input, in order, each character in its own style and hyperlink, read line by line or continuously; only blanks at line ends are lost, and no line is wider than the width up to its last character that is not blank |
| StyledText.SpreadKeepsNonBlank | packages/tui/src/utils.ts:740-819 | Lines that show a text so show every character that is not blank, in order and in its style |
| StyledText.BodyWidthCovers | packages/tui/src/utils.ts:818-818 | The width that is bounded reaches over every character that is not blank |
| StyledText.ContinuousReading | packages/tui/src/utils.ts:715-738 | Lines that close and reopen their styles show the same read one by one or in a stream |
| StyledText.ActiveCodesRestart | packages/tui/src/utils.ts:770-819 | A line that starts with the active codes is shown alike from any part of that style |
| Truncation.TruncateFragmentToWidth | packages/tui/src/utils.ts:61-139 | The result is the longest prefix that fits and ends in a character, with its width, in both forms of the scan |
| Truncation.FinalizeTruncatedResult | packages/tui/src/utils.ts:141-160 | Prefix, reset, ellipsis, reset, padding |
| Truncation.ScanText | packages/tui/src/utils.ts:970-1065 | The scan finds out whether the text is too wide, and then holds the longest prefix that leaves room |
| Truncation.TruncateToWidth | packages/tui/src/utils.ts:936-1072 | Every path, the printable-ASCII one included, computes the one result that is described |
| Truncation.AsciiFit | packages/tui/src/utils.ts:962-969 | For printable ASCII the longest prefix that fits is found by counting |
| Truncation.TruncationIsDetermined | packages/tui/src/utils.ts:936-1072 | The description determines the result, so the fast path agrees with the general scan |
| Truncation.TruncationFits | packages/tui/src/utils.ts:936-1072 | Never wider than allowed, and exactly as wide when padded |
| Truncation.TruncationIsIdempotent | packages/tui/src/utils.ts:936-1072 | Without padding, truncating twice is truncating once |
| Truncation.TruncationKeepsStyle | packages/tui/src/utils.ts:141-160 | The kept text is shown in its own styles; the ellipsis without attributes, but in the hyperlink that was open |
| Truncation.TruncationLeaves | packages/tui/src/utils.ts:141-160 | The style a truncated text leaves behind, for any ellipsis: that at the cut, reset, carried through the ellipsis and reset again |
| Truncation.TruncationEndsPlain | packages/tui/src/utils.ts:141-160 | With an ellipsis without codes, what is left behind is the link that was open at the cut and nothing else, so the result ends plain if and only if none was |
| Truncation.TruncationLeavesLinkOpen | packages/tui/src/utils.ts:141-160 | A text that closes its link, and the only result of truncating it: the link is open at the end |
| Columns.SliceWithWidth | packages/tui/src/utils.ts:1083-1130 | The slice is exactly the stretch of items between the columns, with the codes before it put before its first character |
| Columns.SlicesFit | packages/tui/src/utils.ts:1083-1130 | A strict slice is as wide as the stretch it shows and never wider than asked |
| Columns.SliceFromStart | packages/tui/src/utils.ts:1083-1130 | From the first column the slice is a prefix of the line |
| Columns.SliceKeepsStyle | packages/tui/src/utils.ts:1098-1127 | A slice shows its characters in their own style if and only if the codes at its left edge commute with those before |
| Columns.CleanEdgeKeepsStyle | packages/tui/src/utils.ts:1098-1127 | They do when no code stands between the left edge and the first character, or none before the edge |
| Columns.SliceReopensLink | packages/tui/src/utils.ts:1098-1127 | A line on which they do not: a closed link is open again in the slice |
| Columns.ExtractSegments | packages/tui/src/utils.ts:1138-1209 | For any two columns and length: the first segment is exactly the text that ends by its column, the second exactly what starts at its own or later, is not in the first and fits, with the codes in front that bring its style back |
| Columns.SegmentsFit | packages/tui/src/utils.ts:1138-1209 | Each segment fits in its columns |
| Columns.SegmentsKeepStyle | packages/tui/src/utils.ts:1138-1209 | Each segment, read from a plain style, is shown as in the line |
| Overlay.LayoutFits | packages/tui/src/tui.ts:902-1000 | The box is at least one column wide; its columns lie between the margins if and only if these leave a column, on the screen if and only if the left margin does; likewise its rows |
| Overlay.LayoutPlaces | packages/tui/src/tui.ts:942-1000 | Where the box is, row and column: it begins at the given cell, the given share of the way, the side of its anchor or the middle, is moved by its offset, and stays between the margins |
| Overlay.BeginsOnce | packages/tui/src/tui.ts:942-1000 | There is only one such place |
| Overlay.AnchorsTouch | packages/tui/src/tui.ts:1002-1034 | Without an offset: the anchored sides, 0% and 100% touch their margins, the middle leaves gaps that differ by at most one, and a cell between the margins is used as given |
| Overlay.LayoutSizes | packages/tui/src/tui.ts:921-938 | The width and the height limit are what is asked for as far as the margins leave room, with the minimum and the default of 80 |
| Overlay.SizeIgnoresHeight | packages/tui/src/tui.ts:1052-1066 | The first layout pass gives the width and height limit of the second, whatever the overlay's height |
| Overlay.PlacedByItsLines | packages/tui/src/tui.ts:1047-1066 | An overlay is asked for lines of its width, shows the first of them up to its limit, and is placed by the number it shows |
| Overlay.LinesNeededIsLeast | packages/tui/src/tui.ts:1043-1072 | The rows that are needed are the last that the content or an overlay takes |
| Overlay.CompositeLineAt | packages/tui/src/tui.ts:1181-1229 | The result is the two segments and the overlay's part with their gaps, cut to the screen only if too wide |
| Overlay.CompositeWidth | packages/tui/src/tui.ts:1212-1229 | Never wider than the screen; exactly as wide, and uncut, when the overlay fits |
| Overlay.CompositeShows | packages/tui/src/tui.ts:1181-1215 | What is shown: base text in its style, overlay from a plain style, base text in the style it has there; the whole of it when the overlay fits, otherwise the part up to the edge of the screen |
| Overlay.ResetClears | packages/tui/src/tui.ts:1098-1098 | After a segment reset nothing of the style before it is left |
| Overlay.CompositeOverlay | packages/tui/src/tui.ts:1083-1094 | One overlay is spliced, in place, into exactly the lines it covers |
| Overlay.CompositeOverlays | packages/tui/src/tui.ts:1037-1098 | Without any overlay the lines stay as they are. Otherwise, and also if all are hidden, there are as many lines as content, screen and shown overlays need, and every line is its base line with the shown overlays that cover it spliced in from the lowest up |
| Overlay.OverlayRows | packages/tui/src/tui.ts:1082-1093 | Line i of the topmost overlay lands on row `row + i` of the screen, over what the others show there, and the overlay changes no other row |
| Overlay.SortedByFocus | packages/tui/src/tui.ts:1045-1046 | The shown overlays are stacked in the order of their focus, each once |
| Overlay.SortIsStable | packages/tui/src/tui.ts:1045-1046 | Overlays with the same focus number stay in the order of the stack |
| Overlay.StackedWidth | packages/tui/src/tui.ts:1083-1094 | An uncovered line is untouched; a covered one is at most as wide as the screen, exactly if the topmost overlay fits |
| Overlay.CoveredLinesFill | packages/tui/src/tui.ts:1037-1098 | With any options whose left margin leaves a column, every covered line is exactly as wide as the screen |
| MarkerGate.GateAttempt | packages/agent/src/agent-loop.ts:358-404 | Unless aborted, an attempt is rejected if and only if the batch check on its whole text says so; a rejected one let only start and thinking through, a complete accepted one is passed on unchanged |
| MarkerGate.OpenStreams | packages/agent/src/agent-loop.ts:349-430 | At most three requests, each but the last rejected; the response is the leads of the rejected ones, then the accepted stream, or one error with the parts that had come last; the message is the one the response ends with |
| MarkerGate.SettledEarly | packages/agent/src/agent-loop.ts:384-398 | Once the text seen so far settles the question, the whole text gives the same verdict |
| MarkerGate.JudgedByItsText | packages/agent/src/agent-loop.ts:376-383 | When the final message has the text that was streamed, the verdict depends on that text only, not on how it was cut |
| MarkerGate.MarkedShape | packages/agent/src/agent-loop.ts:384-390 | A text is marked exactly if it is white space, the marker and anything |
| MarkerGate.GateWatches | packages/agent/src/agent-loop.ts:362-398 | Only the start and thinking go through unchecked; a tool call, the end or an error closes the question |
| MarkerGate.FinalTextDecides | packages/agent/src/agent-loop.ts:376-383 | If the streamed text is no more than a beginning of the marker, the text of the final message decides |
| MarkerGate.DeltasInOrder | packages/agent/src/agent-loop.ts:376-376 | The streamed text is the text deltas put together, in order |
| MarkerGate.TextInOrder | packages/agent/src/agent-loop.ts:377-382 | The text of a message is its text parts put together, in order |
| AgentQueue.PendingMessageQueue.Drain | packages/agent/src/agent.ts:139-152 | Takes all in one mode and the first in the other, from the front; what was queued is always what was taken and what is left, in order, and nothing else changes |
| AgentQueue.PendingMessageQueue.Enqueue | packages/agent/src/agent.ts:131-133 | Appends |
| AgentQueue.PendingMessageQueue.Clear | packages/agent/src/agent.ts:154-156 | Withdraws what is left, and counts as a withdrawal |
| AgentQueue.PendingMessageQueue.HasItems | packages/agent/src/agent.ts:135-137 | True exactly when a message is queued |
| AgentTools.SequentialToolsAreSeenByName | packages/agent/src/agent-loop.ts:545-552 | A call of a tool that must run alone makes the batch sequential if and only if it names the tool exactly |
| AgentTools.OtherCaseEscapesTheSequence | packages/agent/src/agent-loop.ts:743-759 | A call in another case that reaches such a tool and runs in parallel |
| AgentTools.CallsFindTheirTool | packages/agent/src/agent-loop.ts:743-759 | A call finds a tool of its exact name first, then one in another case, then one its name is an alias of, and otherwise none |
| AgentTools.OneSequentialCallSuffices | packages/agent/src/agent-loop.ts:545-552 | One call that names a sequential tool makes the batch sequential; without one it runs in parallel |
| AgentLoop.Agent.ProcessEvents | packages/agent/src/agent.ts:529-567 | The state after an event is the reduction the laws replay |
| AgentLoop.Agent.Prompt | packages/agent/src/agent.ts:339-347 | Refused exactly while a run is active; a finished run leaves the old transcript and what the run added, the prompts first, and the agent idle. What left each queue is what the run injected from it, in order, and still owes (nothing if it finished), and nothing offered is lost unless a user withdrew it |
| AgentLoop.Agent.Continue | packages/agent/src/agent.ts:350-377 | Refused in exactly three cases: while active, on an empty transcript, or after a response with nothing queued. After a response it starts with one drain of the steering queue, or of the follow-ups if that is empty, and those messages lead what the run adds; what else left each queue is what the run injected and still owes |
| AgentLoop.Agent.ClearSteeringQueue | packages/agent/src/agent.ts:286-288 | A user withdraws the steering messages: what was taken stays, and the withdrawal is counted |
| AgentLoop.Agent.ClearFollowUpQueue | packages/agent/src/agent.ts:291-293 | The same for the follow-ups |
| AgentLoop.Run.Emit | packages/agent/src/agent-loop.ts:26-26 | An event is emitted only if the protocol allows it; the wrapper's state stays the replay of the log |
| AgentLoop.Run.StreamAssistantResponse | packages/agent/src/agent-loop.ts:297-499 | The events are one message start, one update for every later partial message of the stream, and one message end; partials are replaced in place, so the context gains exactly the final message, which is the one the gate's stream ends with; nothing leaves a queue |
| AgentLoop.EveryPartialIsAnnounced | packages/agent/src/agent-loop.ts:435-471 | A response that starts once is announced as it comes: its start, then one update for each later partial message, in order |
| AgentLoop.Run.FailTruncatedToolCalls | packages/agent/src/agent-loop.ts:508-533 | Every call of a truncated response gets an error result, none is prepared or executed, and the batch does not end the run |
| AgentLoop.Run.PrepareToolCall | packages/agent/src/agent-loop.ts:761-825 | A call is ready exactly if it finds its tool, its arguments are valid, no hook blocks it and the signal has not aborted; otherwise it is refused with an error result |
| AgentLoop.Run.ExecuteToolCallsSequential | packages/agent/src/agent-loop.ts:560-614 | Each call is reported before the next starts; results are those of a prefix of the calls, all of them unless aborted, and only the first if the signal had aborted before; the batch ends the run exactly if every result asks to |
| AgentLoop.Run.LaunchCalls | packages/agent/src/agent-loop.ts:667-669 | The prepared calls are started in source order, none ends before all are started |
| AgentLoop.Run.CompleteCalls | packages/agent/src/agent-loop.ts:649-669 | The calls end in any order, each once, with updates only while it runs |
| AgentLoop.Run.ExecuteToolCallsParallel | packages/agent/src/agent-loop.ts:616-681 | Results in source order whatever the completion order, of a prefix of the calls, all of them unless aborted, and only the first if the signal had aborted before |
| AgentLoop.Run.ExecuteToolCalls | packages/agent/src/agent-loop.ts:538-553 | Truncated exactly for a length stop; otherwise sequential if the configuration or a named tool asks for it, else parallel |
| AgentLoop.Run.GetSteeringMessages | packages/agent/src/agent.ts:460-466 | Logs exactly what left the queue, which is all of it or its first message by the mode at that time; the poll that is skipped takes nothing |
| AgentLoop.Run.GetFollowUpMessages | packages/agent/src/agent.ts:467-467 | Logs exactly what left the queue, which is all of it or its first message |
| AgentLoop.Run.NextPending | packages/agent/src/agent-loop.ts:260-275 | Why the loop goes on: tool results, polled messages from one queue, or the request to resume. After a response that hit the output limit without a call, nothing is pending only if the run was aborted |
| AgentLoop.Run.PollWhenCut | packages/agent/src/agent-loop.ts:261-274 | After a response that was cut short with no steering message queued: a follow-up, or the request to resume, and neither only if the run was aborted |
| AgentLoop.Run.StopIfAsked | packages/agent/src/agent-loop.ts:247-258 | The run closes after a turn exactly if the hook asks for it |
| AgentLoop.Run.Inject | packages/agent/src/agent-loop.ts:182-191 | All pending messages enter context, new messages and log, in order, each under the queue it came from |
| AgentLoop.Run.RunTurn | packages/agent/src/agent-loop.ts:193-225 | One turn keeps context, new messages and ended messages equal, takes nothing from a queue, and leaves the run between turns, or closing after a failed response |
| AgentLoop.Run.RunLoop | packages/agent/src/agent-loop.ts:156-291 | Any number of turns: every event is in protocol, the three transcripts agree, each queue gave up exactly what the log polled from it, a finished run ends with its new messages, an unfinished one did all its turns and was not asked to stop. A finished run has gone on after every response that was cut short, unless it was stopped or seen to be aborted |
| AgentLoop.Run.RunAgentLoop | packages/agent/src/agent-loop.ts:96-119 | A run from its prompts: context, the wrapper's transcript, and snapshot plus new messages are the same list, nothing half streamed or pending; what left each queue is what was injected from it, in order, and what the next turn still owes, and what was injected is among the new messages |
| AgentLoop.Run.RunAgentLoopContinue | packages/agent/src/agent-loop.ts:121-144 | The same for a run without prompts |
| AgentEventLaws.PrefixesAreAccepted | packages/agent/src/agent-loop.ts:110-290 | Every prefix of an accepted log is accepted |
| AgentEventLaws.TurnsBalance | packages/agent/src/agent-loop.ts:174-290 | One agent start and end, turns that do not nest, exactly one response in each |
| AgentEventLaws.MessagesBalance | packages/agent/src/agent-loop.ts:113-189 | Message starts and ends pair up and never nest |
| AgentEventLaws.EveryStartHasOneEnd | packages/agent/src/agent-loop.ts:571-681 | Each call that starts ends exactly once before its turn does, and every update of it comes before that |
| AgentEventLaws.NothingRunsBeforeAllArePrepared | packages/agent/src/agent-loop.ts:626-669 | In a parallel batch no call starts or is prepared after one has begun to execute |
| AgentEventLaws.ResultsPairWithCalls | packages/agent/src/agent-loop.ts:203-225 | Result i of a turn carries the id and name of call i of its response |
| AgentEventLaws.CallsInOrder | packages/agent/src/agent-loop.ts:204-204 | The calls of a response are its call parts, in order |
| AgentEventLaws.ResultsReportTheEnds | packages/agent/src/agent-loop.ts:934-946 | Result i of a turn carries the content and the error flag with which call i ended in that turn |
| AgentEventLaws.ResultsAreAnswered | packages/agent/src/agent-loop.ts:709-711 | Unless every call of a turn asks to stop, another turn follows its results, or the run was asked to stop |
| AgentEventLaws.StopIsHeeded | packages/agent/src/agent-loop.ts:709-711 | If every call of a turn asks to stop, only a message from a queue starts another turn |
| AgentEventLaws.OnlyCompleteResponsesExecute | packages/agent/src/agent-loop.ts:209-215 | No tool executes for a response that was truncated, failed or aborted |
| AgentEventLaws.FailedResponsesEndTheRun | packages/agent/src/agent-loop.ts:196-200 | A response that failed or was aborted ends the run with its turn |
| AgentEventLaws.CutShortGoesOn | packages/agent/src/agent-loop.ts:261-274 | A run ends on a response that hit the output limit without a call only if it was asked to stop, or seen to be aborted, after it |
| AgentEventLaws.NothingDrainedIsLost | packages/agent/src/agent-loop.ts:168-290 | What the polls took is what was injected, from the same queue and in that order, and what the next turn still owes |
| AgentEventLaws.InjectedIsPartOfEnded | packages/agent/src/agent-loop.ts:182-191 | What was injected is part of the messages that entered the conversation, in the same order |
| AgentEventLaws.FollowUpsComeAfterSteering | packages/agent/src/agent-loop.ts:260-284 | A follow-up poll is always preceded, in the same gap between turns, by a steering poll that came back empty |
| AgentEventLaws.ReplayMirrors | packages/agent/src/agent.ts:529-567 | At every point of a run a message is being streamed exactly if one is open, and only calls that have not ended are pending |
| AgentEventLaws.ReplayShowsRunning | packages/agent/src/agent.ts:546-559 | While tools run, every call that has started and not ended is pending, if their ids differ |
| AgentEventLaws.ReplayShowsLast | packages/agent/src/agent.ts:530-544 | The message being streamed is the one that was shown last |
| AgentEventLaws.ReplayKeepsError | packages/agent/src/agent.ts:560-567 | The error kept is that of the last turn that had one |
| AgentEventLaws.ReplayAtRest | packages/agent/src/agent.ts:529-576 | Between turns and at the end, replaying the events gives the starting transcript and the ended messages |
| AgentEventLaws.FinishedRuns | packages/agent/src/agent-loop.ts:110-290 | A finished run: agent start, turns, agent end, balanced counts, and nothing drained left behind |

## Left out

- Renderer.TUI.DoRender: without Kitty images (reserved rows, deletion, range expansion), Termux height changes, `stop()`, logging and timers; the cursor's visibility is not modelled, and a line that is too wide is excluded instead of crashing the renderer.
- Renderer.TUI.Resized: the size a render sees must differ from the last one; resizing there and back between two renders is not modelled.
- Terminal: the column is known only at the left edge and after an absolute move, which is all the renderer relies on.
- normalizeTerminalOutput and `extractCursorPosition`: their results are part of the frame.
- Wrapping.WrapTextWithAnsi: bounds the width up to the last non-blank character, because blanks before a long styled word can stay at a line's end; the input is given split into lines.
- Grapheme segmentation, east-asian widths and the width cache: each cluster comes with its width, and the width of a text is the sum, so clusters that would merge across a removed code are not modelled.
- Columns.ExtractSegments: where a wide character straddles the overlay's right edge, the text after it is not at its own column, as in the source.
- Overlay.LayoutFits: percentages are exact reals, without floating-point rounding, and numbers are whole cells; an anchor is a pair of sides.
- Overlay.CompositeOverlays: whether an overlay is visible and when it got the focus are given; image lines are not modelled.
- StdinBuffers.StdinBuffer.Process: the timer is an event that may come whenever a flush is scheduled.
- StdinBuffers.StdinBuffer.ProcessBytes: the UTF-8 decoding of more than one byte is given.
- StdinBufferLaws.OrdinaryInputInAnyChunks: excludes input that holds a paste marker or looks like an unmarked paste, where the code does depend on the chunks.
- AgentLoop.Agent.Prompt: exceptions that end a run (`handleRunFailure`), `reset()` during a run, listeners that rewrite the transcript and a `prepareNextTurn` that replaces the context are not modelled.
- AgentLoop.Run.PrepareToolCall: what argument validation and the hook say is an arbitrary choice, named in the contract, and so is an outcome after the hook that may rewrite it; tool-list changes announced by a result are left out.
- AgentLoop.EveryPartialIsAnnounced: a stream that starts again after a rejected attempt is not covered; the later start is announced by nothing, as in the source.
- AgentLoop.Run.LaunchCalls: updates and ends are interleaved arbitrarily, one step at a time.
- AgentLoop.Run.RunLoop: time stamps, usage, API keys, model changes and the conversion of messages for the provider are left out.
- AgentTools.SequentialToolsAreSeenByName: lower-casing covers ASCII letters.
- Overlay focus bookkeeping, key tables, kill ring, undo, fuzzy matching: easier than what is here.
- Providers, process supervision and the command line: network and process plumbing.
