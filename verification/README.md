# SimpleCoder, verified

A Dafny model of the parts of SimpleCoder (a terminal chat client with tools) in which a mistake would be hard to
see: the line diff behind edit previews, the protocol between the UI thread and the worker thread, the tool loop and
its history, the confirmation rules, the UTF-8 prompt editor and its soft wrap, greedy word wrap, Base64, and the two
stream parsers (server-sent chunks of a chat reply, newline-delimited replies of a tool server).

`dafny verify dfyconfig.toml` checks everything.

## How it is put together

Code of the program that works by changing things step by step is modelled as methods with loops, or as classes with
the program's fields. Each of these is proved equal to a function on values (`Script`, `Rendered…`, `Consumed` and
`Pack`, `Wrapped`, `Rows`, `Press`, `Feed`, `Reading`, `Loop`, `Step`), and the properties are lemmas about these
functions, for every input, every run or every reachable state.

| files | what they model |
|---|---|
| `TextLines`, `Diff`, `DiffPreview`, `Decimal` | `split_lines`, `lcs_ops`, `unified_diff` |
| `Base64`, `Base64Bits` | `base64_encode`, `base64_decode`, over 8- and 32-bit vectors, and bit by bit |
| `Utf8` | character boundaries, counting, encoding; well-formedness is that of section 4 of RFC 3629 |
| `Editing`, `Input`, `WrapLayout` | the prompt editor `InputBar`: keys, vertical motion, soft wrap and cursor map |
| `TextWrap`, `WrapContent`, `WrapOptimal`, `WrapPieces` | `wrap_text`: what it keeps, what fits, why it is optimal |
| `Confirm`, `Conversation`, `Agent`, `AgentCalls` | allow and deny rules, the gate, the tool loop, `Agent` and its history, the agent's calls at the gate |
| `Framing`, `ChatResponse`, `ReplyStreams`, `ToolCallStreams`, `Transport`, `TransportSessions`, `TransportRequests` | line reassembly, the streaming reply parser, what a stream carries and its tool calls, request and reply matching over whole sessions, how a request ends |
| `Queues`, `Screen`, `ScreenEntries`, `Fences`, `Protocol`, `App` | the event queue, the chat entries, `stripCodeFence`, the two threads as a step relation, the controller's methods |
| `ProtocolSafety`, `ProtocolProgress`, `ProtocolView`, `ProtocolHistory` | what holds in every reachable state and on every fair run |
| `ProtocolAgent`, `ProtocolCompaction` | the sequential agent of `Agent` is among the runs of the two threads; a run in which compaction keeps an older answer |
| `ProtocolStreams`, `ProtocolTranscript` | from the bytes of the replies to the screen: the stream parser and the two threads together |
| `ProtocolCommands` | what the user's commands, Esc and the end of a turn do in every reachable state |
| `Options`, `Sequences` | an optional value, facts about sequences |

The protocol is a step relation: a label says which thread takes which step and what the world does in it (what the
model server sends, whether the user confirms, what a tool returns). A worker posts events, asks for confirmation and
blocks, and posts one terminal event; the UI thread submits, presses Esc, pops events, answers and joins. `Runs` holds
of every sequence of enabled labels, so the results hold for every interleaving.

## Where the code and what is said about it differ

- `src/util/Diff.hpp` says that the preview is empty when the texts are identical. It is also empty when they differ
  in a final newline only, because `split_lines` drops that difference; `DiffPreview.EmptyIff` says exactly when.
- With a context as long as the script the preview can be read back to both line sequences, except when the two
  texts have the same lines and at least one: then it is empty. `DiffPreview.FullContextReadsBackIff` has the exact
  condition and `DiffPreview.ReadBackFails` an example.
- A paragraph that consists of spaces only gets no line at all, although a blank one gets one
  (`WrapContent.NoLinesIff`).
- A request to a tool server can wait on behind an end of file: if the last line has no newline and parses, it is read as
  a message, and only the next read finds the connection closed (`TransportRequests.RequestComesBack`).
- The last error of a tool server's transport is never cleared: a connection that is closed after an earlier timeout is
  reported as another timeout (`TransportSessions.ClosedIsReportedIff`, `TransportSessions.StaleError`).
- `src/app/SystemPrompt.hpp` says that `stripCodeFence` returns what is inside a fence. It loses the last line of the
  text if the closing fence directly follows it on the same line: of "abc" nothing is left. For an empty text with a
  newline behind the closing fence it returns that closing fence, because a position wraps around.
  `Fences.StripInvertsFencingIff` has the exact condition, `Fences.StripKeepsWholeLines` says what is lost, and
  `Fences.StripFails` has an example of each.
- `utf8::encode` takes any 32-bit value. Of one above 0x3FFFFF it drops the upper bits, so that some values that are no
  code points get the bytes of one (`Utf8.EncodeIsWellFormedIff`, `Utf8.EncodeWrapsAround`).
- The text that compaction keeps is the last assistant text anywhere in the history that is not empty, which need
  not be the reply to the compaction request (`ProtocolView.CompactionKeepsLastShown` says which one it is, and
  `ProtocolCompaction.CompactionKeepsOlder` is a run in which it is an older one). The same holds of the text a project scan makes the system prompt (`ProtocolView.InitKeepsLastShown`).

## Model

| member | source | states |
|---|---|---|
| TextLines.SplitLines | src/util/Diff.cpp:12-25 | the character loop computes the lines of a text |
| TextLines.UnlinesOfLines | src/util/Diff.cpp:12-25 | splitting and joining gives the text back with its last line terminated |
| TextLines.LinesOfUnlines | src/util/Diff.cpp:12-25 | joining and splitting gives any lines back |
| TextLines.LinesEqualIff | src/util/Diff.cpp:23 | two texts have equal lines exactly when they differ at most in a final newline |
| TextLines.Blanks | src/llm/ChatResponse.cpp:11-19 | the white space that text is trimmed of |
| Diff.FillTable | src/util/Diff.cpp:36-44 | every cell of the table, the border included, is the value for its two suffixes |
| Diff.LcsOps | src/util/Diff.cpp:34-62 | filling the table and walking it computes the script |
| Diff.LcsDrop | src/util/Diff.cpp:41-42 | dropping a line lowers the table value by at most one and never raises it |
| Diff.LcsBoundsCommonSubsequences | src/util/Diff.cpp:37 | no common subsequence is longer than the table value |
| Diff.ScriptIsOptimal | src/util/Diff.cpp:34-62 | the script spells the old and the new lines, keeps as many lines as the longest common subsequence has, and no script that turns the old lines into the new ones has fewer changes |
| Diff.AddIsNeverFollowedByDel | src/util/Diff.cpp:48-60 | an addition is never directly followed by a removal, which the tie-break decides |
| Diff.ChangeBlocksListRemovalsFirst | src/util/Diff.cpp:48-60 | in every block of changes all removals come before all additions |
| Diff.NoChangesIff | src/util/Diff.cpp:34-62 | the script is free of changes exactly when the sequences are equal |
| DiffPreview.MarkKept | src/util/Diff.cpp:83-89 | exactly the operations within the context of a change are marked |
| DiffPreview.Render | src/util/Diff.cpp:91-110 | the loop prints the layout, separators included |
| DiffPreview.UnifiedDiff | src/util/Diff.cpp:66-111 | the whole preview, with the shortcut for equal texts and the limit on lines |
| DiffPreview.ItemsAreALayout | src/util/Diff.cpp:81-110 | an operation is shown exactly when it is a change or near one, in order, and a separator stands exactly where operations between two shown ones are left out |
| DiffPreview.ReadBack | src/util/Diff.cpp:99-107 | reading the printed text gives back every shown operation and every separator |
| DiffPreview.PreviewShowsExactlyThePrinted | src/util/Diff.cpp:66-111 | the operations read from a preview within the limit are exactly the changes and what is near one, in order, with their kinds and texts |
| DiffPreview.FullContextReadsBackIff | src/util/Diff.cpp:66-111 | with full context the preview reads back to both line sequences if and only if the lines differ or there are none |
| DiffPreview.ReadBackFails | src/util/Diff.cpp:68-70 | two texts, different in a final newline only, that cannot be read back |
| DiffPreview.EmptyIff | src/util/Diff.cpp:66-111 | within the limit the preview is empty if and only if the texts have equal lines |
| DiffPreview.TooLargeTellsTheCounts | src/util/Diff.cpp:73-77 | over the limit different texts get a summary that tells the number of old and of new lines, in decimal figures |
| Decimal.ToStringSpells | src/util/Diff.cpp:75-76 | the figures spell the number, without leading zeros |
| Base64.MakeReverse | src/util/Base64.cpp:15-21 | the table maps every digit to its value and every other byte to 0xFF |
| Base64.DigitsAreTheAlphabet | src/util/Base64.cpp:11-12 | the digit of each value is that character of the alphabet |
| Base64.DigitsAndValues | src/util/Base64.cpp:15-21 | values and digits are inverse on all bytes; padding and white space are no digits |
| Base64.GroupKeepsBits | src/util/Base64.cpp:31-37 | four digits carry the 24 bits of three bytes, most significant first (section 4 of RFC 4648) |
| Base64.AccumulatorStep | src/util/Base64.cpp:69-74 | the byte read off the wrapping 32-bit accumulator depends on the last two digits only |
| Base64.Base64Encode | src/util/Base64.cpp:25-54 | the loop computes the encoding |
| Base64.Base64Decode | src/util/Base64.cpp:56-77 | the loop computes what the consumed digits pack into, whatever the accumulator's high bits hold |
| Base64.EncodedLength | src/util/Base64.cpp:27 | four characters for every three bytes begun |
| Base64.DecodeInvertsEncode | src/util/Base64.cpp:25-77 | decoding gives back any byte string from its encoding with white space inserted anywhere |
| Base64.RoundTrip | src/util/Base64.cpp:25-77 | decoding inverts encoding for every byte string |
| Base64.EncodeInvertsDecodeIff | src/util/Base64.cpp:25-77 | encoding inverts decoding exactly on canonical text (section 3.5 of RFC 4648) |
| Base64.Spaces | src/util/Base64.cpp:66 | the six bytes that count as white space |
| Base64Bits.EncodingSpellsTheBits | src/util/Base64.cpp:25-54 | the digits hold the bits of the bytes, in order, and zeros to fill the last digit; then comes padding to a multiple of four |
| Base64Bits.DecodingReadsTheBits | src/util/Base64.cpp:58-77 | any digits, with white space among them, decode to their bits, eight at a time; decoding stops at padding and at any byte that is no digit |
| Utf8.MasksAreRanges | src/util/Utf8.cpp:5-11 | the masks select the byte ranges of the model |
| Utf8.CountCodePoints | src/util/Utf8.cpp:54-60 | the loop counts one per sequence |
| Utf8.PrevBoundary | src/util/Utf8.cpp:33-38 | the loop goes back to the previous lead byte |
| Utf8.SnapBoundary | src/util/Utf8.cpp:46-52 | the loop goes back to the start of the character |
| Utf8.BoundaryIff | src/util/Utf8.cpp:33-52 | in well-formed text the boundaries are exactly the positions without a continuation byte |
| Utf8.NextBoundary | src/util/Utf8.cpp:40-44 | stepping forward passes exactly one character and ends on a boundary |
| Utf8.PrevOfNext | src/util/Utf8.cpp:33-44 | back undoes forward |
| Utf8.NextOfPrev | src/util/Utf8.cpp:33-44 | forward undoes back |
| Utf8.NoBoundaryInside | src/util/Utf8.cpp:40-44 | no boundary is skipped by a step |
| Utf8.SnapIsLastBoundary | src/util/Utf8.cpp:46-52 | snapping gives the last boundary at or before the position |
| Utf8.CountIncreases | src/util/Utf8.cpp:54-60 | later boundaries have more code points before them |
| Utf8.SequenceLength | src/util/Utf8.cpp:5-11 | the length the masks announce, for every byte |
| Utf8.StepsOfAnyBytes | src/util/Utf8.cpp:33-62 | whatever the bytes: steps back and forth, snapping and counting go by lead bytes alone |
| Utf8.BitsAreSums | src/util/Utf8.cpp:15-29 | the bytes of the encoding are what the shifts, masks and conversions of 32-bit values give |
| Utf8.EncodeIsWellFormedIff | src/util/Utf8.cpp:13-31 | for every 32-bit value: the bytes spell its lowest 22 bits (section 3 of RFC 3629), and are well-formed exactly if these are a scalar value that needs as many bytes |
| Utf8.EncodeIsFaithfulIff | src/util/Utf8.cpp:13-31 | the bytes are well-formed and spell the value itself exactly for scalar values |
| Utf8.EncodeWrapsAround | src/util/Utf8.cpp:24-28 | 0x410000 is no code point and gets the bytes of U+10000 |
| Utf8.TakeCols | src/ui/TextWrap.cpp:13-18 | the loop takes a prefix by code points |
| Utf8.TakeCount | src/ui/InputBar.cpp:12-17 | the prefix has as many code points as asked for, or all, for any bytes |
| Utf8.TakeWellFormed | src/ui/TextWrap.cpp:13-18 | well-formed text is cut on a character boundary |
| Input.InputBar.HandleKey | src/ui/InputBar.cpp:56-108 | every key changes buffer and cursor as the model says, and Enter returns the text and clears |
| Input.InputBar.MoveVertical | src/ui/InputBar.cpp:31-54 | the walk ends where the model says |
| Input.InputBar.InsertText | src/ui/InputBar.cpp:110-113 | text goes in at the cursor, which moves behind it |
| Input.InputBar.InsertNewline | src/ui/InputBar.cpp:115-118 | a newline goes in at the cursor |
| Input.InputBar.Clear | src/ui/InputBar.cpp:120-123 | the prompt is empty afterwards |
| Editing.RunsAreGood | src/ui/InputBar.cpp:56-118 | over every run of keys, newlines and typed scalar values the buffer is well-formed UTF-8 with the cursor on a boundary |
| Editing.PressGood | src/ui/InputBar.cpp:56-108 | every key keeps that |
| Editing.LeftRightInverse | src/ui/InputBar.cpp:80-85 | away from the ends left and right undo each other |
| Editing.BackspaceUndoesTyping | src/ui/InputBar.cpp:65-73 | Backspace undoes the insertion of any character |
| Editing.DeleteAfterLeft | src/ui/InputBar.cpp:65-82 | Backspace is a step left and a forward deletion |
| Editing.UpMovesOneLine | src/ui/InputBar.cpp:38-53 | up moves exactly one logical line up, to the smaller of the old column and that line's length |
| Editing.DownMovesOneLine | src/ui/InputBar.cpp:42-53 | the same downwards |
| Editing.VerticalKeys | src/ui/InputBar.cpp:92-97 | these keys move so, and change no text |
| Editing.HomeAndEnd | src/ui/InputBar.cpp:86-91 | the first column and the end of the same logical line |
| Editing.BackspaceCodes | src/ui/InputBar.cpp:65-67 | the codes terminals send for Backspace mean the same |
| Editing.NothingHappens | src/ui/InputBar.cpp:58-105 | at the ends of the text, and for keys without a meaning, nothing happens |
| Editing.EnterSubmitsWhatWasTyped | src/ui/InputBar.cpp:58-64 | whatever was typed into the empty prompt is what Enter submits, wherever the cursor is, and the prompt is empty again |
| Input.InputBar.LayoutRows | src/ui/InputBar.cpp:132-184 | the loops lay out the rows and put the cursor in the one row that claims it |
| Input.InputBar.VisualLineCount | src/ui/InputBar.cpp:186-188 | the number of rows |
| WrapLayout.RowsPartitionTheBuffer | src/ui/InputBar.cpp:142-178 | the rows, joined with newlines behind logical lines, are the buffer, for any bytes |
| WrapLayout.EveryRowIsFilled | src/ui/InputBar.cpp:152-155 | a row lies in one logical line, holds at most as many code points as fit, but one at least, and exactly so many unless it is the line's last |
| WrapLayout.ExactlyOneRowClaims | src/ui/InputBar.cpp:157-182 | every cursor is claimed by exactly one row, so the fallback is never taken |
| WrapLayout.CursorMapIsInjective | src/ui/InputBar.cpp:160-168 | different boundaries are shown at different places |
| WrapLayout.WideEnoughFits | src/ui/InputBar.cpp:152 | with two columns more than the prompt every row leaves the last column free |
| WrapLayout.FitsIffWideEnough | src/ui/InputBar.cpp:152 | and with text on the first line that width is needed |
| WrapLayout.CursorFits | src/ui/InputBar.cpp:163-166 | then the cursor's column is at most the last one |
| WrapLayout.RowsAreFull | src/ui/InputBar.cpp:148-155 | only the first row starts behind the prompt; every row that is not its line's last reaches exactly up to the free column, or in a narrower window holds one code point |
| WrapLayout.RowsAreFewest | src/ui/InputBar.cpp:142-178 | on well-formed text no layout whose rows leave the last column free has fewer rows |
| WrapLayout.RowsAreFitting | src/ui/InputBar.cpp:142-178 | and in a wide enough window the program's layout is such a layout |
| WrapLayout.CursorColumn | src/ui/InputBar.cpp:160-168 | the cursor is drawn behind the prompt on the first row, and one column further for every character before it; where a line is wrapped it is at the start of the next row |
| TextWrap.WrapParagraph | src/ui/TextWrap.cpp:23-70 | the loops compute the lines of a paragraph; the hard-break loop ends |
| TextWrap.WrapText | src/ui/TextWrap.cpp:74-89 | the lines of all paragraphs in order; a width below 1 counts as 1 |
| WrapContent.WrapKeepsNonSpaces | src/ui/TextWrap.cpp:23-70 | over every input the bytes other than spaces come out unchanged and in order |
| WrapContent.WrapTextKeepsNonSpaces | src/ui/TextWrap.cpp:74-89 | the same for texts with newlines |
| WrapContent.NoLinesIff | src/ui/TextWrap.cpp:25-36 | a paragraph has no line exactly when it is spaces only and not empty |
| WrapContent.WrappedLinesFit | src/ui/TextWrap.cpp:42-69 | lines of a well-formed paragraph are well-formed and fit |
| WrapContent.WrappedTextFits | src/ui/TextWrap.cpp:74-89 | the same for texts |
| WrapOptimal.GreedyIsShortest | src/ui/TextWrap.cpp:54-69 | for any bytes: no split of the words into lines whose words and single spaces add up to at most the width has fewer lines than the greedy one |
| WrapOptimal.GreedyIsMonotone | src/ui/TextWrap.cpp:54-69 | leaving first words out never costs a line |
| WrapOptimal.WrapIsGreedy | src/ui/TextWrap.cpp:33-69 | the loop's lines are the greedy split |
| WrapOptimal.WrapUsesFewestLines | src/ui/TextWrap.cpp:23-70 | for any bytes, when all words fit: the lines are such a split, and no such split has fewer |
| WrapOptimal.WrapUsesFewestColumns | src/ui/TextWrap.cpp:23-70 | on well-formed text, when all words fit: wrapping uses the fewest lines of at most the width in code points, among all order-preserving ways to put the words on lines |
| WrapOptimal.JoinedCols | src/ui/TextWrap.cpp:54-66 | on well-formed words the loop's running sum is the number of code points of the line |
| WrapOptimal.MalformedColumnsDiffer | src/ui/TextWrap.cpp:54-66 | two malformed words whose line has fewer code points than the running sum |
| TextWrap.WordsEndAtSpaces | src/ui/TextWrap.cpp:33-40 | words are as long as possible: they end at spaces only |
| TextWrap.ParagraphsAreWrappedApart | src/ui/TextWrap.cpp:74-89 | every newline ends a paragraph, which is wrapped on its own; a blank one is one blank line |
| WrapPieces.PiecesAreFull | src/ui/TextWrap.cpp:42-51 | the pieces of a word are the word, and all but the last are exactly as wide as a line, for any bytes |
| WrapPieces.PiecesAreFewest | src/ui/TextWrap.cpp:42-51 | no way to cut a well-formed word into parts that fit has fewer of them |
| WrapPieces.WrapIsGreedyOnPieces | src/ui/TextWrap.cpp:23-70 | for every paragraph the lines are the greedy split of its words, those that are too wide cut into pieces, and no split of these has fewer lines |
| Confirm.SplitDecides | src/agent/Confirm.cpp:16-24 | splitting at the first colon decides what a rule matches |
| Confirm.ConfirmPolicy.AddAllow | src/agent/Confirm.cpp:28-35 | adds one rule to the set of allow rules; an empty rule adds nothing |
| Confirm.ConfirmPolicy.AddDeny | src/agent/Confirm.cpp:37-44 | the same for deny rules |
| Confirm.ConfirmPolicy.Decide | src/agent/Confirm.cpp:46-62 | the decision is a function of the two sets of rules, deny before allow, in no order |
| Confirm.MakeConfirmPolicy | src/agent/Confirm.cpp:64-70 | the policy holds exactly the given rules |
| Confirm.ConfirmGate.AllowCall | src/agent/Confirm.cpp:75-106 | one call at the gate: whether it runs, whether the user is asked, what is remembered |
| Confirm.AlwaysSet | src/agent/Confirm.cpp:96-101 | over any session the tools always allowed are those the user said Always for, and the rules never change |
| Confirm.GatedCallsRunIff | src/agent/Confirm.cpp:75-106 | over any session a gated call runs if and only if no deny rule matches and an allow rule matches, an earlier Always exists, or the user said Yes or Always to it |
| Confirm.NeverAskedAgain | src/agent/Confirm.cpp:91-101 | after an Always the user is never asked about that tool again |
| Confirm.UngatedCallsRun | src/agent/Confirm.cpp:75-76 | a call of a tool that is not gated runs without a question, whatever the rules, and leaves the gate as it was |
| Agents.Agent.RunToolCalls | src/agent/Agent.cpp:44-65 | one result is appended for each call, in order, through the gate |
| Agents.Agent.RunToolLoop | src/agent/Agent.cpp:21-73 | the loop ends and appends as the model says |
| Agents.Agent.SendMessage | src/agent/Agent.cpp:126-150 | one turn: a failed one drops everything it added |
| Agents.Agent.SetSystemPrompt | src/agent/Agent.hpp:86-88 | the system prompt is stored, and the history waits for the next reset |
| Agents.Agent.Reset | src/agent/Agent.cpp:103-108 | the system prompt, if any, is all that is left |
| Agents.Agent.CompactIntoSummary | src/agent/Agent.cpp:110-119 | the system prompt and the summary are all that is left |
| Agents.LoopKeepsShape | src/agent/Agent.cpp:21-73 | the loop sends at most as many requests as allowed, every one with all earlier calls answered, and appends whole rounds and a final answer if it succeeds |
| Agents.RequestsAreAnswered | src/agent/Agent.cpp:126-140 | the same for a whole turn on a well-formed history |
| Agents.SendKeepsShape | src/agent/Agent.cpp:126-150 | a turn keeps the history well-formed, and leaves it as it was if it fails |
| Agents.HistoryIsAlwaysWellFormed | src/agent/Agent.cpp:103-150 | over every sequence of sends, resets and compactions the history is at most two system messages and whole turns |
| Agents.EverySendBehaves | src/agent/Agent.cpp:21-150 | every send in such a sequence makes at most the allowed number of requests, each with all earlier calls answered, and changes nothing if it fails |
| Agents.LoopEndsWhenDone | src/agent/Agent.cpp:21-73 | the loop ends exactly with the first reply that fails or calls no tool, or before the next request if the turn is cancelled or the requests are used up; every request holds the one before, its reply and the results |
| Agents.ForgettingKeepsThePrompt | src/agent/Agent.cpp:103-119 | starting anew leaves exactly the system prompt, if there is one, compacting exactly that and the summary |
| Agents.TokensAreTheLastCounted | src/agent/Agent.cpp:118-146 | over every sequence of operations the stored number of tokens is the one counted last |
| AgentCalls.OutputIffAllowed | src/agent/Agent.cpp:44-65 | a tool's output is fed back exactly when the gate allows the call |
| AgentCalls.ConversationIsASession | src/agent/Agent.cpp:25-67 | all calls of a conversation, across iterations and turns, are one session at the gate |
| AgentCalls.GatedToolsRunIff | src/agent/Confirm.cpp:75-106 | over every run of the agent a gated tool runs if and only if no deny rule matches and an allow rule matches, an earlier Always exists, or the user was asked and did not say No; after an Always the user is not asked again |
| AgentCalls.UngatedToolsRun | src/agent/Confirm.cpp:75-76 | over every run of the agent a tool that is not gated is executed without a question |
| AgentCalls.TurnFeedsBack | src/agent/Agent.cpp:44-65 | a successful turn adds the user's message with its images, and rounds in which every call has its own result: the output of a tool that is not gated, output or refusal of a gated one, an error for an unknown one |
| Framing.CompleteConcat | src/llm/ChatResponse.cpp:26-35 | complete lines may be taken off early; only the remainder has to be kept |
| Framing.RemainderConcat | src/llm/ChatResponse.cpp:29-34 | and the remainder is the same |
| Framing.LinesAndRemainder | src/llm/ChatResponse.cpp:26-35 | the complete lines, each with its newline, and the remainder are the text |
| ChatResponse.StreamParser.FeedBytes | src/llm/ChatResponse.cpp:26-35 | one feed processes every line it completes and keeps the rest |
| ChatResponse.StreamParser.ProcessTheLine | src/llm/ChatResponse.cpp:37-51 | one line: what is skipped, what ends the stream, what is parsed |
| ChatResponse.StreamParser.ProcessTheChunk | src/llm/ChatResponse.cpp:53-114 | one chunk: usage, finish reason, texts, callbacks, tool-call fragments |
| ChatResponse.StreamParser.ToolCalls | src/llm/ChatResponse.cpp:116-123 | the calls by strictly ascending index |
| ChatResponse.ChunkingDoesNotMatter | src/llm/ChatResponse.cpp:26-35 | any cutting of the bytes into feeds ends in the same state with the same callbacks |
| ChatResponse.OnePassOverTheLines | src/llm/ChatResponse.cpp:26-51 | namely those of one pass over the newline-terminated lines; an unterminated last line is not processed |
| ChatResponse.CallbacksSpellTheTexts | src/llm/ChatResponse.cpp:79-92 | at any moment the texts are what the callbacks were told, in order |
| ReplyStreams.TrimCutsBlanks | src/llm/ChatResponse.cpp:11-19 | trimming takes off blanks at both ends and nothing else |
| ReplyStreams.StreamCollects | src/llm/ChatResponse.cpp:26-92 | of any stream, cut in any way: the answer and the reasoning are the pieces its chunks carry as such, the callbacks are told these pieces in order, each as what it is, the finish reason and the token counts are the last ones reported, and it is done once an end marker has come |
| ToolCallStreams.Reassembly | src/llm/ChatResponse.cpp:94-113 | after any fragments every index has its latest id and name and the concatenation of its own arguments |
| ToolCallStreams.StreamMerges | src/llm/ChatResponse.cpp:37-113 | what the parser holds after any lines is the fold of the fragments of all their chunks |
| ToolCallStreams.ToolCallsOfStream | src/llm/ChatResponse.cpp:94-123 | for any stream, cut in any way, the calls listed are those of the indices that occur, strictly ascending, each with its latest id and name and its own arguments |
| ToolCallStreams.InterleavingDoesNotMatter | src/llm/ChatResponse.cpp:94-113 | two streams with the same fragments for each call end in the same calls, however these are interleaved |
| ChatResponse.AscendingIsUnique | src/llm/ChatResponse.cpp:116-123 | there is only one ascending list of the indices |
| ChatResponse.ListingIsUnique | src/llm/ChatResponse.cpp:116-123 | so the listing is determined by what the parser holds |
| ToolCallStreams.SwapFragments | src/llm/ChatResponse.cpp:94-113 | adjacent fragments of different calls may be swapped |
| ToolCallStreams.SwapInStream | src/llm/ChatResponse.cpp:94-113 | also in a stream, where they may be in different chunks |
| Transport.StdioTransport.ReadLine | src/mcp/Transport.cpp:94-133 | the loop reads the next message, with all its ways to fail |
| Transport.StdioTransport.Request | src/mcp/Transport.cpp:51-72 | the loop skips messages until one matches |
| Transport.ReadingConserves | src/mcp/Transport.cpp:94-133 | what a read returns and what is left is the message stream, in order |
| Transport.AwaitingConserves | src/mcp/Transport.cpp:55-71 | the same for a request and all it skips |
| Transport.ReplyIsTheOnlyMatchRead | src/mcp/Transport.cpp:62-70 | only messages that do not match are skipped, and the reply matches |
| Transport.ReplyIsTheFirstMatch | src/mcp/Transport.cpp:51-72 | while bytes keep arriving, however cut, the reply is the first matching message of the stream, and the request blocks exactly while there is none |
| TransportSessions.OwnId | src/mcp/McpClient.hpp:53 | over any session every reply carries the id of its own request (section 5 of the JSON-RPC 2.0 specification) |
| TransportSessions.LateAnswersAreDropped | src/mcp/Transport.cpp:62-69 | where every message of the stream that bears an id answers the request with that id, what is returned for a request is a message of the stream that answers it and no other |
| TransportSessions.LateAnswerIsSkipped | src/mcp/Transport.cpp:62-69 | a concrete honest session in which the second request skips the late answer to the first, which timed out |
| TransportSessions.RepliesAreRead | src/mcp/Transport.cpp:55-71 | every message a session returns is one that it has read |
| TransportSessions.SessionConserves | src/mcp/Transport.cpp:51-133 | over any session every message is read once and in order, or is still to be read |
| TransportSessions.SessionRecords | src/mcp/Transport.cpp:94-133 | over any session the stored error is the text of the last failed read since the opening |
| TransportSessions.ClosedIsReportedIff | src/mcp/Transport.cpp:55-61 | a request that fails after any session reports that text; it reports a closed connection if and only if no read since the opening has failed |
| TransportSessions.StaleError | src/mcp/Transport.cpp:58-60 | a timeout, then a closed connection: the timeout is reported twice |
| TransportRequests.RequestComesBack | src/mcp/Transport.cpp:51-133 | every request, from any state and for all inputs, succeeds with the first message that answers it, or fails with the first failure or end of file, with the text of the last failure or of a closed connection, or waits: exactly if nothing of all this comes |
| TransportRequests.UnsentRequestFails | src/mcp/Transport.cpp:51-54 | a request that cannot be sent fails at once and reads nothing |
| TransportRequests.NeverBlockedByFailure | src/mcp/Transport.cpp:55-61 | a failure, or an end of file that brings no message, never leaves a request blocked |
| Queues.ThreadQueue.Push | src/util/ThreadQueue.hpp:22-28 | an item goes to the back |
| Queues.ThreadQueue.Pop | src/util/ThreadQueue.hpp:32-39 | the front item, or nothing exactly when the queue is closed and empty |
| Queues.ThreadQueue.TryPop | src/util/ThreadQueue.hpp:42-48 | the front item, or nothing exactly when the queue is empty |
| Queues.ThreadQueue.Shutdown | src/util/ThreadQueue.hpp:51-57 | what is queued can still be popped |
| Queues.FirstInFirstOut | src/util/ThreadQueue.hpp:20-57 | under any interleaving of the operations above what came out and what is left is what went in, in order, also once the queue is closed |
| Screens.DisplayShows | src/app/App.cpp:386-404 | what an event does to the chat entries is what it does to the turn's answers |
| Screens.ShowPopped | src/app/App.cpp:382-386 | displaying an event now or later gives the same answers |
| ScreenEntries.EventsAreShown | src/app/App.cpp:386-404 | every event on screen: which entry it extends or adds, and that all others stay |
| ProtocolSafety.AlwaysInv | src/app/App.cpp:200-447 | the invariant of all interleavings is kept by every step |
| ProtocolSafety.TurnsAreIsolated | src/app/App.cpp:200-247 | a turn runs exactly while a worker is unjoined; idle means an empty queue; no thread is overwritten; events belong to their turn; the UI touches the history only when no worker does |
| ProtocolSafety.OneRequestOneTerminal | src/app/App.cpp:75-81 | a waiting worker has exactly one unanswered request, and a turn posts exactly one terminal event, last |
| ProtocolSafety.NoDeadlock | src/app/App.cpp:382-447 | during a turn one of the threads can always take a step towards its end |
| ProtocolSafety.JoinAlwaysReturns | src/app/App.cpp:411-441 | the UI joins only a worker that has posted its terminal event and has nothing to wait for |
| ProtocolSafety.CompactionNeverCascades | src/app/App.cpp:335-380 | automatic compaction directly follows a completed ordinary turn; a turn ends cancelled only after Esc in that turn |
| ProtocolSafety.FailureRestoresHistory | src/agent/Agent.cpp:140-143 | a failed or cancelled turn leaves the history as it was when it was submitted |
| ProtocolCommands.ClearForgets | src/app/App.cpp:588-591 | clearing leaves no chat entry, and of the history exactly the system prompt |
| ProtocolCommands.NextTurnKnowsNothing | src/app/App.cpp:588-591 | whatever comes in between, the first request after clearing holds the system prompt, if there is one, and one message of the user |
| ProtocolCommands.EscStopsTheTurn | src/app/App.cpp:497-501 | after Esc, in every run, the turn sends no further request, and a reply still coming in can be aborted |
| ProtocolCommands.SendSubmits | src/app/App.cpp:164-182 | a typed line starts an ordinary turn with its payload and images, and is shown with a line for every image and the attached files |
| ProtocolCommands.CommandsStartTurnsIff | src/app/App.cpp:249-348 | which commands start a turn: /init unless declined, /compact as soon as there is a turn to compact |
| ProtocolCommands.NoticesAndQuitting | src/app/App.cpp:582-587 | a notice is shown and does nothing else; after quitting no command is accepted |
| ProtocolCommands.BadEndIsTold | src/app/App.cpp:429-441 | a failed turn tells its error, a cancelled one that it was cancelled; nothing else changes and no turn follows |
| ProtocolCommands.FullContextIsCompactedIff | src/app/App.cpp:370-380 | when an ordinary turn has completed, a compaction starts if and only if the context is full |
| ProtocolCommands.UserIsAsked | src/app/App.cpp:75-81 | the user is asked about the tool by name, with the details of the call |
| ProtocolCommands.CallsAreTold | src/app/App.cpp:219-234 | calls are announced with name and arguments, results with a mark that says whether the tool ran and succeeded |
| ProtocolProgress.UiLowers | src/app/App.cpp:382-447 | every step of the UI thread lowers the rank |
| ProtocolProgress.WorkerLowers | src/agent/Agent.cpp:25-67 | every step of the worker lowers the rank |
| ProtocolProgress.OthersKeepRank | src/app/App.cpp:497-501 | Esc and idle keys do not raise it and stop neither thread |
| ProtocolProgress.SomethingMoves | src/app/App.cpp:236-246 | fair threads always move on during a turn |
| ProtocolProgress.EveryTurnEnds | src/app/App.cpp:236-246 | on every fair run, from every state, the program comes back to idle |
| ProtocolProgress.AlwaysIdleAgain | src/app/App.cpp:382-447 | every fair run from the start is idle again and again, with an empty queue and no worker |
| ProtocolView.ViewAgreesWithHistory | src/app/App.cpp:382-404 | when a successful turn is handled, its answer entries that are not empty are, in order, the assistant texts that are not empty among the messages it added |
| ProtocolView.LastAnswerOf | src/app/App.cpp:350-358 | the text a search from the end of the history finds is the last one the turn added that is not empty, or else an earlier one |
| ProtocolView.CompactionKeepsLastShown | src/app/App.cpp:350-368 | a completed compaction keeps the last answer shown in its own turn, if there is one that is not empty, and otherwise an earlier one; without any it says so and the history stays |
| ProtocolCompaction.CompactionKeepsOlder | src/app/App.cpp:350-368 | a run in which the model answers the request for a summary with no text, and an older answer is kept as the summary |
| ProtocolView.InitKeepsLastShown | src/app/App.cpp:267-295 | a completed project scan makes the same text, without its code fence, the system prompt, if anything is left of it and the file can be written; it says which, and the history stays |
| Fences.StripInvertsFencingIff | src/app/SystemPrompt.cpp:61-81 | stripping undoes fencing if and only if the body ends its last line, or is empty with no newline behind the closing fence |
| Fences.StripKeepsWholeLines | src/app/SystemPrompt.cpp:71-78 | of a body that is not empty exactly a last line that is not terminated is lost |
| Fences.StripFails | src/app/SystemPrompt.cpp:75-77 | an input for either loss: an empty body that keeps the closing fence, and a line that is lost |
| Fences.KeptUnlessOpened | src/app/SystemPrompt.cpp:61-81 | text is left as it is if and only if it does not open a fence: blanks, a fence, a label and a newline |
| ProtocolAgent.LoopIsARun | src/agent/Agent.cpp:21-73 | every run of the sequential tool loop, gate and user's answers included and in whatever pieces the replies come, is a run of the worker with the same end and history |
| ProtocolAgent.AgentTurnIsARun | src/app/App.cpp:236-246 | from every reachable idle state every turn of the agent, in whatever pieces the replies come, is a run of the two threads up to the join with the same end and history |
| ProtocolStreams.StreamSpells | src/llm/ChatResponse.cpp:79-92 | what the worker is told of a stream spells the content its parser ends with, however the bytes are cut |
| ProtocolStreams.StreamedRepliesSpell | src/llm/ApiClient.cpp:124-206 | what arrives of replies that are parsed from streams spells their texts, so these turns of the agent are among the runs too |
| ProtocolStreams.AnswersAreTheStreams | src/app/App.cpp:213-246 | over every run, cutting of the bytes and interleaving: the assistant messages a successful turn adds are the contents and tool calls of the streams of its completed replies, in order, and its answer entries that are not empty are the contents of these streams that are not empty |
| ProtocolTranscript.TurnIsShown | src/app/App.cpp:208-234 | likewise the tool results shown are the contents of the tool messages the turn adds, in order, cut where they are too long, and all reasoning of its replies is shown, in one entry if there is any |
| ProtocolHistory.HistoryStaysWellFormed | src/agent/Agent.cpp:21-73 | in every reachable state: between turns the history is well-formed, and a request that is out has all its calls answered |
| Apps.App.Submit | src/app/App.cpp:200-247 | shows the user's text and a line for every image, resets the turn's state and starts the worker with the text and the images |
| Apps.App.HandleUserInput | src/app/App.cpp:164-182 | submits, then lists the attached files |
| Apps.App.RunInit | src/app/App.cpp:249-265 | asks, or marks the turn and submits |
| Apps.App.FinishInit | src/app/App.cpp:267-295 | takes the last answer of the history, without a code fence, as the new system prompt, if anything is left of it and the file can be written |
| Apps.App.RunCompact | src/app/App.cpp:335-348 | says that there is nothing to compact, or marks the turn and submits |
| Apps.App.FinishCompact | src/app/App.cpp:350-368 | replaces the history by the summary, if there is one |
| Apps.App.MaybeAutoCompact | src/app/App.cpp:370-380 | compacts if the context is full |
| Apps.App.HandleNext | src/app/App.cpp:382-410 | one event: what it adds to the chat, or what the thread then waits for |
| Apps.App.DrainEvents | src/app/App.cpp:382-384 | events are handled in order until none is left or the thread has to wait |
| Apps.App.AnswerDialog | src/app/App.cpp:406-410 | the answer lets the worker go on |
| Apps.App.FinishTurn | src/app/App.cpp:411-441 | the three ways a turn ends |
| Apps.App.PressEscape | src/app/App.cpp:497-501 | sets the cancel flag and says so the first time |
| Apps.App.Clear | src/app/App.cpp:588-591 | empties the chat and resets the history |
| Apps.App.RequestConfirmation | src/app/App.cpp:75-81 | posts the request and waits |

## Left out

- ncurses drawing, windows, dialogs, collapsing and scrolling of chat entries, themes, banners and Markdown: terminal output without a hard property.
- libcurl transfers, processes, pipes, signals and polling: they are inputs of the model (`Transport.Input`, the labels of `Protocol`).
- JSON: `ChatResponse.Parse` and `Transport.Parse` are arbitrary functions from text to an optional record. Values of the wrong type at places where the JSON library would throw are not modelled; where the code ignores them the record holds `None`.
- File, shell and web tools, MCP handshakes, configuration, skills, logging, `parse_command`, `url_encode` and `html_to_text`: mostly file system or network code, or properties that follow from one body.
- Integers are unbounded: `i + context` in `unified_diff` and the counters are assumed not to overflow. The exception is the accumulator of `base64_decode`, which wraps.
- Threads are interleaved at queue operations, flag accesses and promise operations; memory effects below that level are not modelled.
- Tools and callbacks are assumed to terminate and not to throw, and all callbacks to be present.
- Fairness of the UI thread is an assumption of `ProtocolProgress.EveryTurnEnds`: some keys make the event loop start over without draining events, so a user who never stops pressing them keeps events waiting.
- The worker in `Protocol` leaves open how the gate decides about a call (`Verdict`); `Confirm` and `Agent` say how it does, and `ProtocolAgent` shows that the worker covers it. The worker may do more than the agent, so only what holds of all runs carries over.
- Token counts and timing: whether the context is nearly full is an arbitrary answer of the world, given when a turn ends.
- The texts of the project and compaction prompts, the contents of the project file, and the expansion of `@file` attachments are inputs of the model; `human_size`, the size of an image as shown, is part of the image.
- Replies are finite: `LoopTest` is given all pieces of a reply at its start. A server that never stops sending, or that hangs without closing the connection, keeps a turn from ending until the user presses Esc, and `ProtocolProgress.EveryTurnEnds` says nothing about it.
- `Queues.ThreadQueue.Pop`: waiting is the method's precondition; the condition variable is not part of this model.
- Deletion of the transport and the Windows build.
- The classes split the source's longer methods and loops into several methods, one for each loop or step.
