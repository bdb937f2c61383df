# Letta, modelled and proved in Dafny

This project models the parts of Letta whose behaviour is hardest to see from the code, and proves what
they do for every input:

* **the inner-thoughts extractor** (`Thoughts*.dfy`, `FlatJson.dfy`): the character machine that splits a streamed
  JSON object into main JSON and inner thoughts, as a class that follows a pure step function. Proved: the cuts of
  the stream do not matter and nothing is lost or invented; no quote is ever left dangling, on any input; the waiting
  machine computes what the plain one computes and only decides when to hand it out; and, on every flat object whose
  inner thoughts are strings, the exact condition under which the object without its inner thoughts comes out.
* **the message token stream** (`Message*.dfy`): the handler that picks one string argument out of streamed function
  arguments. Proved: for a member's string, with its opening quote, content and closing quote in any chunks, the exact
  condition under which it comes out of a handler that hears the key with the member's colon; and what chunks behind
  it let out.
* **the agent run** (`Agent*.dfy`): requests, retries, tools, history, tool history, summaries and chaining, with the
  model, the tools, the tool rules and the block store as arbitrary answers. Every step leaves a record of its attempts.
  Proved over whole runs: every recorded step is appended once and in order, and only summaries take anything away;
  calls and answers are paired; the tool history is what the handled responses called; work is bounded; a failed tool
  is not offered in the next step's first attempt, and when a retry offers it again; read-only blocks survive.
* **configuration** (`Config*.dfy`): deep merge and its laws, and flattening to environment variables, with the exact
  condition under which flattening commutes with merging.
* **the GLM-4.7 tool-call format** (`Glm*.dfy`, `PythonStrings.dfy`): the parser inverts the format it documents.
* **call/response pairing** (`Pairing.dfy`) and **bounded gathering** (`Gather.dfy`).
* **two data migrations** (`Backfill*.dfy`, `Archive.dfy`): which rows the offset-stepped encryption really encrypts,
  and what the archive migration conserves.

Where the code does not do what its documentation says, the model keeps the code and the theorem gives the exact
condition:

* The extractor (`letta/streaming_utils.py:19`, `26`) delivers an object only if its last value alone may be
  something else than a string, no inner-thoughts member trails other members, and no whitespace stands between an
  inner-thoughts key's colon and its string (`ThoughtsMeaning.ExtractionExact`). A waiting extractor hands out nothing
  of such an object if it has no inner thoughts (`ThoughtsDelivery.WaitingDelivery`).
* A message handler gives out a member's string exactly if all of this holds (`MessageDelivery.MessageDelivered`): its
  opening quote brings no content along unless it shares the colon's chunk, no content chunk ends like a terminator
  (as an escaped quote does), the closing quote is followed in its chunk by at most one delimiter and then blanks, and
  that chunk is not white content and the quote. Each of these fails on real chunks
  (`MessageCuts.GluedQuoteNotDelivered`, `MessageCuts.EscapedQuoteNotDelivered`, `MessageCuts.LongTailNotDelivered`,
  `MessageCuts.WhiteEndNotDelivered`). An earlier member's colon in the chunk with the key's closing quote and colon makes
  it fail always (`MessageDelivery.EarlierColonNotDelivered`). The key is looked for anywhere in the buffer, so a longer name is taken for it (`MessageCuts.LongerNameTaken`). The buffer
  outlives the message, so later members come out exactly when one of their chunks opens a string that is not empty
  before a brace (`MessageLater.LaterMemberLeaks`, `MessageLater.SecondMemberLeaks`).
* A failed tool (`letta/agent.py:324`) is kept from the first attempt of the next step only. It is offered in the step
  all the same exactly when a retry makes a request while the rules allow the tool (`AgentLaws.KeptAwayExactly`,
  `AgentLaws.RetryOffersFailedTool`).
* The backfill is documented to encrypt existing rows; it skips every second batch and is complete exactly up to one
  batch of rows (`BackfillLaws.LeftUndone`, `BackfillTable.UpgradeLeavesOneRow`).
* The archive migration means to continue with other agents when an insert fails
  (`alembic/versions/74e860718e0d_add_archival_memory_sharing.py:308-310`); PostgreSQL then refuses every further
  statement of the transaction, so the migration goes through for all agents or for none (`Archive.Database.Upgrade`).
  It leaves soft-deleted passages without an archive id, so its later NOT NULL holds exactly when there are none
  (`Archive.Database.Upgrade`, `Archive.DeletedPassageFails`).

Python strings are sequences of characters. Exceptions are result values. Dicts whose order does not matter are maps,
walked in arbitrary order. Random ids, encryption, the language model, tool execution and tool rules are parameters
over which every statement is quantified.

## Model

| member | source | states |
|---|---|---|
| ThoughtsExtractor.JSONInnerThoughtsExtractor.constructor | letta/streaming_utils.py:38-50 | the object starts in the machine's initial state, holding back exactly when told to wait |
| ThoughtsExtractor.JSONInnerThoughtsExtractor.EmitMain | letta/streaming_utils.py:90-94 | main text goes to the held buffer or to main buffer and update, never both |
| ThoughtsExtractor.JSONInnerThoughtsExtractor.EmitStringChar | letta/streaming_utils.py:162-174 | a string character goes to the key, the inner thoughts or the main text by state |
| ThoughtsExtractor.JSONInnerThoughtsExtractor.HandleQuote | letta/streaming_utils.py:111-146 | an unescaped quote opens or closes a string, moves the state, and releases held text |
| ThoughtsExtractor.JSONInnerThoughtsExtractor.HandleStructural | letta/streaming_utils.py:175-233 | colon, comma, braces and bare characters move the state and are printed or dropped |
| ThoughtsExtractor.JSONInnerThoughtsExtractor.ProcessChar | letta/streaming_utils.py:57-233 | one character takes the object one step of the machine; the second escape branch (lines 147-161) is unreachable |
| ThoughtsExtractor.JSONInnerThoughtsExtractor.ProcessFragment | letta/streaming_utils.py:52-236 | a fragment takes the object through the machine; the returned pair is what main buffer and inner thoughts gained |
| ThoughtsExtractor.FeedAll | letta/streaming_utils.py:30-34 | the documented usage loop: after all fragments the object is where one call on the whole text would be, and the updates concatenate to the growth of both buffers |
| ThoughtsMachine.FragmentsAsOne | letta/streaming_utils.py:52-56 | processing fragments one after the other equals processing their concatenation |
| ThoughtsMachine.FragmentationIndependence | letta/streaming_utils.py:23 | any two ways of cutting a text lead to the same state, flags and buffers |
| ThoughtsMachine.MainGrows | letta/streaming_utils.py:52-236 | main text once written is never taken back |
| ThoughtsTable.OutsideStrings | letta/streaming_utils.py:175-233 | what each character outside strings prints, by state, braces of nested objects included, and where it leads |
| ThoughtsTable.InStrings | letta/streaming_utils.py:162-174 | a character of a string goes to the key, the thoughts or the main text |
| ThoughtsTable.OpeningQuote | letta/streaming_utils.py:112-135 | what an opening quote starts, prints and releases |
| ThoughtsTable.ClosingQuote | letta/streaming_utils.py:136-146 | what a closing quote ends and prints, and when inner thoughts are finished |
| ThoughtsTable.EscapesOutside | letta/streaming_utils.py:57-110 | an escape pair outside strings is printed unless inside thoughts |
| ThoughtsTable.EmptyObjectPrinted | letta/streaming_utils.py:209-219 | an empty object as a value is printed |
| ThoughtsQuotes.RunKeepsInv | letta/streaming_utils.py:57-146 | escape pairs are never split between sinks and a printed key opens and closes one string, after any input |
| ThoughtsQuotes.QuotesNeverDangle | letta/streaming_utils.py:102-110 | after any input, quotes are open in the emitted text exactly inside a string value that is no inner thoughts, and its trailing escape is the pending one |
| ThoughtsWaiting.RunAgrees | letta/streaming_utils.py:118-123 | from any state the waiting machine mirrors the plain one, held or released |
| ThoughtsWaiting.WaitingRefinesPlain | letta/streaming_utils.py:49-50 | on every input both machines agree in state, flags and thoughts; the main text is wholly held until a key opens after a finished inner-thoughts string and wholly handed out from then on |
| ThoughtsReading.StrMemberRead | letta/streaming_utils.py:182-208 | a string member is printed, or its body extracted, whatever the whitespace around its tokens |
| ThoughtsReading.RawMemberRead | letta/streaming_utils.py:223-233 | a literal or number is printed and leaves the machine inside the value |
| ThoughtsMeaning.InStepRead | letta/streaming_utils.py:38-236 | both buffers for any object whose values but the last are strings |
| ThoughtsMeaning.NoColonNext | letta/streaming_utils.py:182-233 | from between values, on any input, the next main text does not start with a colon |
| ThoughtsMeaning.OutOfStepDiffers | letta/streaming_utils.py:196-208 | with another value before the last member, the main text is never the object without inner thoughts |
| ThoughtsMeaning.ExtractionExact | letta/streaming_utils.py:9-28 | on every flat object with string inner thoughts: the kept object and the concatenated bodies come out if and only if only the last value is no string, no inner thoughts trail, none has whitespace before it |
| ThoughtsMeaning.EarlyNumberNotExtracted | letta/streaming_utils.py:223-233 | a concrete object with an early number is not delivered |
| ThoughtsMeaning.TrailingThoughtNotExtracted | letta/streaming_utils.py:196-208 | a concrete object with trailing inner thoughts is not delivered |
| ThoughtsMeaning.SpacedThoughtNotExtracted | letta/streaming_utils.py:224-227 | a concrete object with a space before its inner thoughts is not delivered |
| ThoughtsDelivery.UnlocksExactly | letta/streaming_utils.py:118-123 | an object releases held text exactly when a member follows inner thoughts |
| ThoughtsDelivery.WaitingDelivery | letta/streaming_utils.py:19 | what a waiting extractor hands out and still holds at the end of an extractable object |
| MessageStream.FunctionArgumentsStreamHandler.constructor | letta/streaming_utils.py:255-257 | a new handler is a reset one |
| MessageStream.FunctionArgumentsStreamHandler.ResetState | letta/streaming_utils.py:259-263 | reset clears all four fields |
| MessageStream.FunctionArgumentsStreamHandler.CloseOrContinue | letta/streaming_utils.py:321-336 | the backward scan finds a terminating quote with optional delimiter and blanks, or the text is content |
| MessageStream.FunctionArgumentsStreamHandler.EnterMessage | letta/streaming_utils.py:275-303 | the colon chunk enters the message and hands out content behind its opening quote |
| MessageStream.FunctionArgumentsStreamHandler.ProcessJsonChunk | letta/streaming_utils.py:265-344 | one chunk takes the handler one step of the machine |
| MessageStream.Find | letta/streaming_utils.py:281-283 | the first occurrence from a position, or none |
| MessageStream.FindIsAfter | letta/streaming_utils.py:281-286 | searching by index and cutting behind the first occurrence agree |
| MessageStream.ProcessSafe | letta/streaming_utils.py:265-344 | on any chunk: a started message is an open one, and what comes out is part of the chunk |
| MessageStream.OutsideByCase | letta/streaming_utils.py:270-309 | outside a message: what braces, the heard key and other chunks do to the key buffer |
| MessageStream.InsideByCase | letta/streaming_utils.py:311-344 | inside a message: what quotes, braces and other chunks do, before the opening quote and behind it |
| MessageReading.HeadPassed | letta/streaming_utils.py:270-308 | whatever colons and braces come before the key is heard, nothing comes out |
| MessageReading.OpeningRead | letta/streaming_utils.py:275-319 | what each way of opening leads to: the colon's chunk with the quote, or the quote in a later chunk, with or without content |
| MessageReading.CutAtOrBehind | letta/streaming_utils.py:321-334 | the backward scan cuts at the closing quote exactly if at most one delimiter and then blanks follow, and behind it otherwise |
| MessageReading.EndingRead | letta/streaming_utils.py:311-336 | what comes of a closing chunk with any tail: its body, nothing, or more than the closing quote |
| MessageReading.ClosingChunk | letta/streaming_utils.py:321-336 | in characters: a chunk with a quote gives back what is before it and ends the message if and only if behind it there is at most one of comma, brace or bracket, and then spaces, tabs and line ends |
| MessageReading.ContentKept | letta/streaming_utils.py:321-336 | a chunk of an open message comes back whole exactly when it does not end like a terminator; otherwise it ends the message and comes back shorter |
| MessageDelivery.EndingFits | letta/streaming_utils.py:265-344 | what any state makes of a closing chunk without further colons: no more than its body, a string opened again without its colon, or the closing quote as well |
| MessageDelivery.LateStartLoses | letta/streaming_utils.py:311-319 | a message passed over at its opening quote and started later never makes up for it |
| MessageDelivery.ClosingDecides | letta/streaming_utils.py:311-336 | where opening and content came through, what comes out for any closing chunk |
| MessageDelivery.MessageDelivered | letta/streaming_utils.py:265-344 | for a handler that hears the key with the member's colon, however the string is cut: the outputs concatenate to it if and only if opening, content and closing chunk are all taken for what they are |
| MessageDelivery.ObjectDelivered | letta/streaming_utils.py:265-344 | the same from the start of an object |
| MessageDelivery.EarlierColonNotDelivered | letta/streaming_utils.py:281-286 | with an earlier colon and the key's quote in the chunk of the member's colon, the string never comes out, whatever follows |
| MessageCuts.EscapedQuoteNotDelivered | letta/streaming_utils.py:321-334 | a concrete message with escaped quotes is not delivered |
| MessageCuts.GluedQuoteNotDelivered | letta/streaming_utils.py:316-319 | a concrete message whose opening quote shares its chunk with the first word is not delivered |
| MessageCuts.LongTailNotDelivered | letta/streaming_utils.py:321-336 | concrete messages whose closing quote comes with the next quote, or with a newline and the brace, come out with that quote |
| MessageCuts.WhiteEndNotDelivered | letta/streaming_utils.py:311-315 | a concrete message that ends with a space in the chunk of its closing quote loses it |
| MessageCuts.CommaEndsMessage | letta/streaming_utils.py:326-330 | a concrete chunk with a comma behind its quote ends the message |
| MessageCuts.WholeObjectDelivered | letta/streaming_utils.py:287-298 | a whole object in one chunk is delivered |
| MessageCuts.LongerNameTaken | letta/streaming_utils.py:275 | a member with a longer name is taken for the message |
| MessageCuts.LossMadeUpFor | letta/streaming_utils.py:265-344 | behind lost content, a closing chunk with another member can put back what was lost |
| MessageLater.ChunkSpeaksExactly | letta/streaming_utils.py:274-302 | with the key in the buffer a chunk has an output if and only if it is no opening brace and a quote follows its first colon |
| MessageLater.FateTold | letta/streaming_utils.py:265-344 | with the key in the buffer, any chunks come first to an output, to a brace that clears the buffer, or to nothing, as read from the chunks alone |
| MessageLater.LaterMemberLeaks | letta/streaming_utils.py:274-302 | after a delivered message, any further chunks have an output before a brace clears the buffer if and only if one opens a string that speaks |
| MessageLater.SecondMemberLeaks | letta/streaming_utils.py:274-302 | a concrete second member comes out |
| AgentModel.FailedToolNotOffered | letta/agent.py:319-330 | the tool registered last is not offered after a failure, and nothing is offered exactly when it was all that is allowed |
| AgentModel.OfferedWithoutFailure | letta/agent.py:319-330 | without a failure passed on, a tool is offered exactly when it is allowed and there |
| AgentModel.SummarizeTrims | letta/agent.py:1155-1169 | trimming and prepending keep the system message and a suffix of the history, behind one summary of what is gone |
| AgentModel.TrimmedTwice | letta/agent.py:1155-1169 | trimming composes, and so do the numbers of summaries |
| AgentModel.TrimmedWithoutSummary | letta/agent.py:1155-1169 | without a summary nothing but the system message is another |
| AgentLoop.Agent.SummarizeMessagesInplace | letta/agent.py:1107-1172 | the history is summarized and the alert reset, or an error leaves both alone |
| AgentLoop.Agent.GetAiReply | letta/agent.py:300-442 | how many requests are made and what each offers; the reply is the first answer that is not retried, and an error has one of four causes; a summary exactly on token overflow |
| AgentLoop.Agent.HandleFunctionError | letta/agent.py:236-275 | the call is registered and answered by a tool message with its id |
| AgentLoop.Agent.HandleAiResponse | letta/agent.py:444-750 | which messages answer a response, paired by id; which call is registered, what is remembered, the history afterwards, heartbeat and failure, and what the handler raises |
| AgentLoop.Agent.TryStep | letta/agent.py:871-1020 | the record of a try block is true: input and reply once behind the history, or nothing; when it succeeds |
| AgentLoop.Agent.AskAndRecord | letta/agent.py:906-1020 | every request has its offer on record; the history, the reply and everything that comes of it are the model's first answer's that is not retried; and which error is raised otherwise |
| AgentLoop.Agent.ActAndRecord | letta/agent.py:924-1020 | a response is recorded exactly when neither handling nor logging it raises |
| AgentLoop.Agent.RecordReply | letta/agent.py:935-1020 | the new messages are appended behind the history, or nothing when logging the step raises; when a warning is given |
| AgentLoop.Agent.PrepareRetry | letta/agent.py:1022-1072 | a retry happens exactly after an overflow, without autoclear, within the retry limit, and after a summary; what is raised otherwise |
| AgentLoop.Agent.TryAndPrepare | letta/agent.py:871-1072 | the record of an attempt is true: its try block and what its exception leads to |
| AgentLoop.Agent.InnerStep | letta/agent.py:857-1072 | the records of all attempts are true, each starts where the one before ended, only the first knows of the failure, and their requests are all that were made |
| AgentLoop.Agent.NextInput | letta/agent.py:800-849 | what is sent next, in this order of precedence: on a warning to be sent, a failure or a heartbeat |
| AgentLoop.Agent.LoggedStep | letta/agent.py:775-798 | the record of a step is true of it, attempt by attempt |
| AgentLoop.Agent.Turn | letta/agent.py:775-849 | each step follows from the one before |
| AgentLoop.Agent.Step | letta/agent.py:753-855 | a run is a chain of true records; step count, messages and usage agree with them; the number of steps is bounded, and why a run ends; the final history |
| AgentLaws.RunRecordsOnce | letta/agent.py:935-1004 | over any run the final history is the first one with every recorded step appended once and in order; what is missing is replaced by no more summaries than were made |
| AgentLaws.NothingLostWithoutSummary | letta/agent.py:1155-1169 | in a run without a summary everything is there, exactly, behind the system message |
| AgentLaws.OneEntryPerResponse | letta/agent.py:736-737 | the tool history has one entry for each attempt whose answer was handled |
| AgentLaws.HistoryIsCalled | letta/agent.py:736-737 | over any run the tool history is exactly what the handled answers called, in order, recorded or not |
| AgentLaws.RunRecordsAnswers | letta/agent.py:973-1004 | over any run, what was recorded is exactly what the handled answers lead to, each with its step's input, but for those lost because logging them or asking the tool rules raised |
| AgentLaws.CallsBounded | letta/agent.py:1037-1053 | requests are at most steps times attempts times requests per attempt |
| AgentLaws.WorkBounded | letta/agent.py:804-806 | with max_chaining_steps = m, at most m + 1 steps and the product of requests |
| AgentLaws.FailedToolNotOfferedNext | letta/agent.py:324-328 | after a failed step no request of the next first attempt offers that tool, and with nothing else allowed the chain ends without a request |
| AgentLaws.RetryOffersExactly | letta/agent.py:1045-1053 | a retry offers a failed tool exactly when it makes a request and the rules allow the tool |
| AgentLaws.KeptAwayExactly | letta/agent.py:1045-1053 | a step that knows of a failure offers the failed tool exactly when one of its retries makes a request that allows it |
| AgentLaws.RetryOffersFailedTool | letta/agent.py:1045-1053 | a concrete run in which the retry offers the failed tool |
| AgentCases.CallOnRecord | letta/agent.py:537-713 | for each way a tool can go: the text of the tool message, what is remembered, and whether the call failed |
| AgentCases.TextOnRecord | letta/agent.py:714-729 | a text answer on record |
| AgentCases.HeartbeatByRule | letta/agent.py:738-747 | the heartbeat: a continue rule or children first, then a terminal tool, then the tool's own wish |
| AgentCases.WarningByThreshold | letta/agent.py:945-977 | usage, and when a memory warning is given |
| AgentCases.HistoryOnRecord | letta/agent.py:433-436 | the history in front of a reply: refreshed prompt, summary on token overflow, prompt rebuilt unless the call failed |
| AgentCases.OfferedByRule | letta/agent.py:319-330 | which tools a request offers |
| AgentCases.RequestsByAnswers | letta/agent.py:354-442 | how many requests are made, and why none |
| AgentCases.RaisedWithoutReply | letta/agent.py:416-442 | which error an attempt raises before it has a reply |
| AgentCases.RaisedWithReply | letta/agent.py:466-1020 | which error an attempt raises with a reply, by kind of answer and tool run |
| AgentCases.RegisteredByCase | letta/agent.py:252-253 | which call is registered, by kind of answer and tool run |
| AgentCases.RetriedExactly | letta/agent.py:1025-1053 | an attempt is followed by another exactly on an overflow, without autoclear, within the limit and with something to summarize |
| AgentCases.OverflowIsRetried | letta/agent.py:1025-1053 | a request that fails with an overflow is followed by a summary and another attempt, with any other error the step ends |
| AgentCases.RaisedOutOfStep | letta/agent.py:1032-1072 | which error leaves a step |
| AgentCases.SentByCase | letta/agent.py:808-846 | the message between two steps of a run, by case |
| AgentCases.NothingToSend | letta/agent.py:847-849 | the loop has nothing to send exactly without warning, failure and heartbeat |
| AgentBlocks.MemoryAgent.EnsureReadOnlyBlockNotModified | letta/agent.py:191-198 | passes exactly when every read-only block keeps its value, and else raises for the first that does not |
| AgentBlocks.MemoryAgent.WriteChangedBlocks | letta/agent.py:213-218 | exactly the blocks with a new value are written, up to the first missing one |
| AgentBlocks.MemoryAgent.UpdateMemoryIfChanged | letta/agent.py:200-234 | unchanged blocks are not written; afterwards memory equals store and changed labels hold the new value |
| AgentBlocks.MemoryAgent.ExecuteMemoryTool | letta/agent.py:1618-1626 | a tool that touches a read-only block changes nothing; an error has exactly one of three causes |
| AgentBlocks.MemoryAgent.RefreshFromStore | letta/agent.py:876-883 | the refresh at the start of a step leaves the store as it is and takes the stored blocks over |
| AgentBlocks.MemoryAgent.RunMemorySteps | letta/agent.py:775-849 | over any sequence of refreshes, memory tools and other agents' writes to shared blocks, read-only blocks keep their stored value |
| AgentBlocks.WritingIsSafe | letta/agent.py:213-218 | writing what changed, even half way, spares read-only blocks and blocks with the same value |
| AgentBlocks.RereadIsSafe | letta/agent.py:220-225 | rereading by id makes memory and store agree |
| AgentBlocks.AllWritten | letta/agent.py:213-218 | in values: each block of the agent is stored with its new value where that is another, and as it was elsewhere |
| ConfigTree.DeepMerge | letta/config_file.py:103-111 | the loop over the override, in any order, computes the merge |
| ConfigTree.MergeIdempotent | letta/config_file.py:103-111 | merging a tree with itself changes nothing |
| ConfigTree.MergeUnit | letta/config_file.py:103-111 | the empty dict is the unit |
| ConfigTree.CoversExactly | letta/config_file.py:103-111 | an override replaces a tree exactly when it covers it |
| ConfigTree.MergeAssociativeExactly | letta/config_file.py:103-111 | merge is associative exactly when no scalar between two dicts hides something |
| ConfigTree.MergeAssociative | letta/config_file.py:103-111 | on compatible trees merge is associative |
| ConfigTree.LeafOfMerge | letta/config_file.py:104 | at every leaf path the override wins |
| ConfigTree.MergeAllLastWins | letta/config_file.py:89-98 | folding any list of compatible trees gives the last tree's leaf at every path |
| ConfigTree.LoadedLastWins | letta/config_file.py:89-100 | on compatible mappings, the loaded leaf at every path is the one of the last file that defines it |
| ConfigTree.LoadConfig | letta/config_file.py:89-100 | the fold over the files, passing over unreadable files and files that are no mapping; on compatible mappings the last file that defines a path wins |
| ConfigFlatten.SettingsGrow | letta/config_file.py:114-124 | the settings of a dict are those of its items under their names |
| ConfigFlatten.FlattenWithPrefix | letta/config_file.py:114-124 | in any order of items, the variables written are those of the non-null leaves |
| ConfigFlatten.FlattenSettings | letta/config_file.py:127-149 | model and tool settings follow the same rule with the bare key as prefix |
| ConfigFlatten.ConfigToEnvVars | letta/config_file.py:177-211 | the four sections with their prefixes; an error exactly when a section is no mapping |
| ConfigLaws.TextOfMerge | letta/config_file.py:103-111 | the text at any path of a merge, for any two trees |
| ConfigLaws.SettingsByPath | letta/config_file.py:195-209 | the exported variables of a configuration, by path |
| ConfigLaws.FlattenIsHomomorphismExactly | letta/config_file.py:103-211 | with distinct names, flattening a merge is the right-biased union of the flattened parts if and only if the override erases no exported value |
| ConfigLaws.CompatibleNeverErases | letta/config_file.py:103-211 | compatible shapes and no nulls never erase |
| ConfigLaws.ExportedByLeaf | letta/config_file.py:114-211 | with names apart: a boolean leaf is exported as "true" or "false", any other as its text, a null not at all |
| ConfigLaws.ExportedFromLeaf | letta/config_file.py:195-209 | every variable comes from such a leaf |
| ConfigLaws.NamesWritten | letta/config_file.py:117-149 | the variable names of short paths in the four sections, written out |
| ConfigLaws.NameOfLongerPath | letta/config_file.py:117 | the name of a longer path |
| ConfigLaws.FlagExported | letta/config_file.py:161-162 | the enabled flag of the source's own example |
| GlmFormat.SplitShape | letta/adapters/sglang_native_adapter.py:187 | what a search leaves before and after a tag |
| GlmFormat.ParseGlm47ToolCalls | letta/adapters/sglang_native_adapter.py:181-220 | the loop yields the parse of every inner text in order |
| GlmRoundTrip.CallParsed | letta/adapters/sglang_native_adapter.py:188-219 | the text between the tags of a rendered call parses to that call |
| GlmRoundTrip.PiecesFound | letta/adapters/sglang_native_adapter.py:187 | exactly the rendered calls are found, and exactly the plain text is left |
| GlmRoundTrip.LastValueWins | letta/adapters/sglang_native_adapter.py:217 | a repeated key keeps its last value |
| GlmRoundTrip.ZippedLastWins | letta/adapters/sglang_native_adapter.py:217 | for any keys and values: paired up to the shorter list, the last pair of a key counts |
| GlmRoundTrip.InnerByCase | letta/adapters/sglang_native_adapter.py:188-211 | what a call's inner text gives: JSON, no call, or a name up to the first tag or line end |
| GlmRoundTrip.OneCallParsed | letta/adapters/sglang_native_adapter.py:184 | a call of one argument with its tags written out |
| GlmRoundTrip.SkipClear | letta/adapters/sglang_native_adapter.py:187 | a search passes over text that only lacks its tag, angle brackets or not |
| GlmRoundTrip.ParseInvertsFormat | letta/adapters/sglang_native_adapter.py:181-263 | any interleaving of plain text and rendered calls, fields free only of the tags searched in them, parses to the calls in order and strips to the plain text, trimmed |
| Pairing.AnnotateMessage | letta/utils.py:602-699 | one message and the buffer, in every branch |
| Pairing.Annotate | letta/utils.py:589-701 | the pass returns the annotated list and leaves it in place, or raises at one message, with those before it annotated and the rest left alone |
| Pairing.StepShape | letta/utils.py:606-697 | a step changes ids only, and what the buffer holds next |
| Pairing.BufferHolds | letta/utils.py:598-614 | the buffer holds exactly the id of the last call not yet answered |
| Pairing.KindsWritten | letta/utils.py:606-658 | what counts as a call, a response and a call's id |
| Pairing.ReturnsExactly | letta/utils.py:602-697 | the pass returns exactly if every message is in order by role, id and position, and else raises at the first that is not |
| Pairing.RaisesByCase | letta/utils.py:603-692 | which error it raises |
| Pairing.ResponsesPaired | letta/utils.py:616-693 | every response carries the id of the call it answers, adjacent unless it had an id, or a fresh one |
| Pairing.AnsweredOnce | letta/utils.py:635-636 | no id answers twice, and no call is answered twice |
| Pairing.CallIds | letta/utils.py:606-614 | a call keeps its own id or gets the next new one, as does a response without a call |
| Pairing.DrawnOnce | letta/utils.py:607-625 | every new id, of a call or a response, is written once |
| Pairing.IdempotentExactly | letta/utils.py:677-693 | a second pass gives the same list if and only if every response is a tool message that answers a call |
| Gather.NeverMoreThanLimit | letta/utils.py:1515-1525 | in every reachable state running tasks and free permits add up to the limit, and each step comes nearer to the end |
| Gather.StuckExactly | letta/utils.py:1515-1525 | a reachable state is stuck exactly when all have finished or there is no permit at all |
| Gather.RunsEnd | letta/utils.py:1528-1539 | every schedule ends after two steps per coroutine, with every result there once |
| Gather.ResultsInInputOrder | letta/utils.py:1541-1543 | in whatever order results came, the sorted list is in input order |
| Gather.GatherInInputOrder | letta/utils.py:1512-1543 | with a permit, the results of any run that is over, sorted, are in input order |
| Backfill.Select | alembic/versions/8149a781ac1b_backfill_encrypted_columns_for_.py:77-98 | the query returns exactly the rows in need whose rank lies in the window |
| BackfillTable.Table.EncryptFields | alembic/versions/8149a781ac1b_backfill_encrypted_columns_for_.py:106-132 | which columns of a fetched row are encrypted, and whether there is an update |
| BackfillTable.Table.PrepareUpdates | alembic/versions/8149a781ac1b_backfill_encrypted_columns_for_.py:103-132 | the updates of a batch and their number |
| BackfillTable.Table.WriteUpdates | alembic/versions/8149a781ac1b_backfill_encrypted_columns_for_.py:134-140 | writing by id changes exactly the updated rows |
| BackfillTable.Table.ProcessBatch | alembic/versions/8149a781ac1b_backfill_encrypted_columns_for_.py:75-146 | one turn of the loop |
| BackfillTable.Table.Upgrade | alembic/versions/8149a781ac1b_backfill_encrypted_columns_for_.py:67-154 | the loop is a run of batches, whatever encrypt does, and ends when a query is empty; it never changes a plaintext or a real ciphertext, and encrypts every second batch when encryption succeeds |
| BackfillLaws.NothingIsLost | alembic/versions/8149a781ac1b_backfill_encrypted_columns_for_.py:110-140 | whatever encrypt does with each row, a batch keeps plaintexts and ciphertexts, and a new ciphertext comes from the row's own plaintext |
| BackfillLaws.ColumnInBatch | alembic/versions/8149a781ac1b_backfill_encrypted_columns_for_.py:110-128 | a column of a fetched row is encrypted exactly if it has a plaintext, no ciphertext, and encrypt gives something, whatever the other columns do |
| BackfillLaws.UpdatedByColumn | alembic/versions/8149a781ac1b_backfill_encrypted_columns_for_.py:108-132 | a row counts as updated when one of its columns is encrypted |
| BackfillLaws.RowInBatch | alembic/versions/8149a781ac1b_backfill_encrypted_columns_for_.py:77-98 | a batch takes the rows in need whose number of needy rows before them lies in the window |
| BackfillLaws.ChosenNow | alembic/versions/8149a781ac1b_backfill_encrypted_columns_for_.py:85-97 | the shrinking query at a growing offset picks the first half of a block of two batches |
| BackfillLaws.EmptyMeansPassed | alembic/versions/8149a781ac1b_backfill_encrypted_columns_for_.py:100-101 | the loop stops only when all blocks were passed |
| BackfillLaws.CompleteOnlyUpToOneBatch | alembic/versions/8149a781ac1b_backfill_encrypted_columns_for_.py:96-146 | of 2qB + r rows, qB + min(r, B) are encrypted; all of them exactly up to B |
| BackfillLaws.LeftUndone | alembic/versions/8149a781ac1b_backfill_encrypted_columns_for_.py:67-154 | the rows still in need at the end; none exactly when there were at most B |
| BackfillLaws.ColumnAtEnd | alembic/versions/8149a781ac1b_backfill_encrypted_columns_for_.py:67-154 | every column at the end of the loop |
| BackfillTable.RunEnds | alembic/versions/8149a781ac1b_backfill_encrypted_columns_for_.py:75-146 | what any finished run of batches has done |
| BackfillLaws.OneRowTooMany | alembic/versions/8149a781ac1b_backfill_encrypted_columns_for_.py:67-154 | with one row more than a batch, one row is left |
| BackfillTable.UpgradeLeavesOneRow | alembic/versions/8149a781ac1b_backfill_encrypted_columns_for_.py:67-154 | the loop itself leaves that row |
| Archive.Database.CreateArchive | alembic/versions/74e860718e0d_add_archival_memory_sharing.py:279-310 | exactly one new archive and one link to it for an agent, or no link when an insert fails or is refused; a failure aborts the transaction |
| Archive.Database.CreateBatch | alembic/versions/74e860718e0d_add_archival_memory_sharing.py:278-310 | all agents of a batch are linked unless an insert fails |
| Archive.Database.CreateSomeBatch | alembic/versions/74e860718e0d_add_archival_memory_sharing.py:252-312 | one turn of the first loop |
| Archive.Database.CreateArchives | alembic/versions/74e860718e0d_add_archival_memory_sharing.py:250-312 | the first loop ends; it raises exactly when an insert fails, and links exactly the agents with a live passage otherwise, with one archive each |
| Archive.Database.FileBatch | alembic/versions/74e860718e0d_add_archival_memory_sharing.py:341-360 | one update statement files exactly the matched passages of its batch |
| Archive.Database.FilePassages | alembic/versions/74e860718e0d_add_archival_memory_sharing.py:316-366 | the second loop on its own ends; with fewer passages of unlinked agents than a batch it files all others, and never one of those |
| Archive.Database.MayStopEarlyExactly | alembic/versions/74e860718e0d_add_archival_memory_sharing.py:341-362 | for the second loop on its own: while a passage can still be filed, an update may match nothing exactly when passages of unlinked agents fill a batch |
| Archive.Database.Upgrade | alembic/versions/74e860718e0d_add_archival_memory_sharing.py:225-374 | it raises and changes nothing exactly when an insert fails; otherwise one owned archive per agent with a live passage and no other, every live passage under its own agent's archive, deleted ones under none, NOT NULL exactly without deleted ones |
| Archive.DeletedPassageFails | alembic/versions/74e860718e0d_add_archival_memory_sharing.py:374 | a concrete database on which NOT NULL fails |

## Left out

- Nested objects and objects with inner thoughts that are no strings, in the extractor's meaning theorem: there is no body to ask for, or the source does not claim to parse them. Quotes, waiting and fragmentation are proved for all inputs.
- `sanitize_streamed_message_content` (letta/streaming_utils.py:347-363): one pure expression.
- MessageDelivery.MessageDelivered: inner quotes are escaped, as in any JSON string. Behind content that was already lost, a closing chunk with a colon or backslash behind its quote is not covered, because such a chunk can make up for the loss (MessageCuts.LossMadeUpFor).
- MessageDelivery.EarlierColonNotDelivered: does not cover a chunk that ends between the key's closing quote and its colon; the member is then a new start for the handler, with the name already given out.
- ConfigTree.DeepMerge: does not show that nested dicts are shared between result and arguments, because trees are values; that arguments never change is therefore built in.
- ConfigFlatten.ConfigToEnvVars: keys are strings; the text of a number is given, not computed. Writing the variables into the process environment is not modelled.
- GlmFormat.ParseGlm47ToolCalls: the JSON fallback is a parameter, arguments are maps instead of JSON text, call ids are not modelled.
- Pairing.Annotate: does not model that one dict may stand at two places of the list.
- Gather.RunsEnd: does not model a coroutine that raises, nor the queue inside the semaphore; any waiting task may be the next to enter.
- AgentLoop.Agent.Step: a run without a step limit may never end, so a run is watched up to a horizon; `save_agent`, job links, telemetry and the message interface are not modelled.
- AgentLoop.Agent.GetAiReply: does not model streaming, the forced tool or a missing context window.
- AgentLoop.Agent.HandleAiResponse: tool results are strings; `validate_function_response` also returns dicts.
- AgentLoop.Agent.SummarizeMessagesInplace: the cutoff is any position behind the system message, because its computation is not part of this model. Pairing across a cutoff is not claimed.
- AgentBlocks.MemoryAgent.ExecuteMemoryTool: sandboxed tools skip the read-only check and are not covered.
- BackfillTable.Table.Upgrade: row ids are positions in id order; progress output and intermediate commits are not modelled.
- Archive.Database.Upgrade: starts from empty archive tables and an intact foreign key, as in the migration; schema statements are not modelled beyond the NOT NULL condition.
- Network, database sessions, tracing and the adapters' requests to model servers: input and output only.
