# EMMA, verified

A Dafny model of the stateful cores of EMMA, a self-hosted assistant, with proofs of what
its documentation and tests promise about them:

- **Conversation memory** (`Window`, `InMemoryStore`, `SqlStore`, `Simulation`). One sliding-window
  contract, a one-shot definition of it, and the two stores that apply it step by step: one trims a
  list, the other deletes rows by id from a table all conversations share. `Simulation` runs both
  side by side over arbitrary interleavings, with appends stopped at any point after their first commit.
- **Snapshots and recovery** (`Snapshots`). The directory as a map from names to files, a failure
  possible at every move, copy and vacuum, and a ghost trace of every directory state: a crash may leave
  any of those the last operation went through.
- **The router** (`Wire`, `Router`). A bounded agentic loop around a model, tools, a gate and a store
  that may all misbehave. The store is the SQL one, started on whatever table an earlier process left.
  Every outcome is read from a script indexed by the number of calls made so far; since the contracts hold for all scripts, they hold for every adaptive adversary too.
- **The Groq dialect** (`Groq`). Translation of transcripts and replies, with a decoder that reads
  them back.
- **Strings** (`Text`). Python's `strip`, `split`, `join` and `str`, each with the laws that determine it.
- **Two-stage tool removal and the development queue** (`ToolState`, `Removal`, `Tasks`,
  `Development`).
- **The retry ladder** (`Retry`), **message splitting** (`Splitter`) and **facts** (`Facts`).

Objects whose methods update fields are classes; SQL tables are sequences of rows in primary-key
order held in a field, and a `ghost` log or trace in each class records the history its invariant
speaks about. Time, file faults and the outcomes of outside calls are parameters.

## What the proofs found

- *A snapshot write can lose both generations.* The source says that a snapshot is never replaced by
  something worse (core/memory.py:434-437). If the current snapshot is present but damaged and
  the previous one is healthy, rotation moves the damaged file over the healthy one before the new
  copy is in place; a failed install, or a crash between the renames, then leaves nothing to restore.
  `SafeToWriteIff` shows that this is the only way: a write is safe under every fault and stopping
  point exactly when no damaged current snapshot is present. `DamagedOverGood` is a run that ends so.
- *A damaged database that cannot be moved is opened all the same.* `_recover` returns, and `open`
  connects without a second check (core/memory.py:400-402, 246-253). A file that fails its integrity
  check may still open, and VACUUM INTO may make a copy of it that passes. `DatabaseFiles.Open` says
  exactly when the connection is to a healthy database; `SalvagedOverGood` is a run in which two such
  copies push every healthy copy of a row out of both generations, with no fault in any write.
- *Recovery is not crash-atomic.* Recovery is entered only when the database exists
  (core/memory.py:243), and a missing one is created empty, whatever snapshots there are.
  `RecoveryAtomicIff`: a recovery that can move what it has to survives a crash at every point exactly
  when there is no row to recover and no write-ahead log; `InterruptedRecoveryIff` says at which points
  it does. `RecoveryInterrupted` is a run in which the crash comes between the move and the copy, and
  the next start and stop overwrite both healthy generations with an empty history.
- *A crash between the two commits of an append breaks the window until it is healed.* What is read
  then is the settled window and everything cut short since (`CrashedExactly`); `BrokenIff` says when
  that is too long or opens with an answer, and `CrashBreaksSize` and `CrashBreaksOrder` are runs in
  which it does. In runs where every answer directly follows its question, as the router appends
  them, no crash ever makes a history open with an answer (`AlwaysUserFirst`). A statement that fails
  in the middle of a pass, in a process that goes on, can (`TornPassBreaksOrder`). `InterruptionSafeIff`:
  an append can be cut short anywhere exactly when the window is not exceeded or its size cut lands on
  a user message, and `FullWindowIsExposed`: with a full window the next question or its answer fails that.
- *Closed jobs are closed only to the user.* The store's own operations do not look at the status
  (core/tasks.py:256-260, 288-291, 320-323). `ClosedUntouchedIff` says that exactly an advance, finish
  or abandon that names a closed job alters it; `FinishedThenAdvanced` is a run that does, and the two
  chat tools are proved never to.
- *Two open removal jobs for one tool are possible* through a hand-written request that opens like a
  removal (`AskedTwice`), or by advancing a closed removal job (`AdvancedAgain`). `UniqueThroughoutIff`
  shows that no other operation on the queue can cause it, and `OrdinaryRunUnique` that a system that
  files removals only through `RemoveTool`, for names without blanks, and advances no closed job never
  has two. With a blank in a name, one tool's request may open like another's: `MarkersClashIff` says for
  which pairs, and `BlanksClash` gives some.
- *A window of one message remembers nothing.* `PruneKeepsWholeExchanges` keeps the last
  `max_messages / 2` exchanges, rounded down.

## Hypotheses

- Turns, and the tool calls inside a round, run one after another (core/router.py:318-324,
  428-430), so a store operation is one atomic step.
- A model call fails only as unreachable or out of quota (core/router.py:342-348).
- The window size is fixed while a store object lives; ids only grow (AUTOINCREMENT).
- A history that cannot be read raises; an append that raises leaves the table as it was, or with the
  message inserted and committed and part of the rows its pass would delete gone.
- A file copy that fails leaves nothing; a crash may leave one under way as a file without a byte,
  which SQLite takes for an empty database, or as a damaged one. An integrity check is right about the file it reads;
  VACUUM INTO, when its copy of a healthy database passes the check, has copied its rows, while the
  copy of a damaged one may hold any rows. Connecting to a healthy database leaves it healthy, creating
  one yields a healthy one, and nothing done through a connection repairs a damaged one.
- JSON decoding inverts encoding on objects (section 4 of RFC 8259): `Groq.Faithful`, which
  `Groq.FaithfulCodecsExist` shows can be met. SQL `lower()` is any function.
- `limit >= 1` in `_split_message`; with 0 the source's loop does not end.
- Retry advice is the delay-seconds form of Retry-After (section 10.2.3 of RFC 9110), as `float`
  reads it; a date counts as no advice.

## Model

| member | source | states |
|---|---|---|
| Window.PruneIsLongest | core/memory.py:145-154 | one pass keeps the longest suffix that is within the size and empty or opened by the user, and no other history is that |
| Window.PruneComposes | core/memory.py:134-154 | pruning after every append leaves what pruning the whole log once would leave |
| Window.PruneIdempotent | core/memory.py:82-91 | pruning twice in a row changes nothing |
| Window.PruneKeepsWholeExchanges | core/memory.py:145-154 | of a log of whole question/answer pairs exactly the last half-window of pairs is kept, for odd sizes too |
| Window.TearSafeIff | core/memory.py:299-322 | a pass can be stopped after any number of its deletes without leaving an answer in front if and only if none was there and nothing exceeds the size or the size cut lands on a user message |
| Window.FullWindowIsExposed | core/memory.py:299-322 | with a window full of exchanges the next question or its answer is an append whose pass cannot |
| InMemoryStore.InMemoryConversationMemory.Create | core/memory.py:106-122 | a size that is not strictly positive is refused, any other gives an empty store |
| InMemoryStore.InMemoryConversationMemory.Append | core/memory.py:134-138 | every stored history stays the window of everything ever appended to it |
| InMemoryStore.InMemoryConversationMemory.PruneNow | core/memory.py:140-143 | pruning a reachable store changes no conversation |
| InMemoryStore.InMemoryConversationMemory.PruneLocked | core/memory.py:145-154 | deleting the excess and then leading non-user messages one at a time equals the one-shot window |
| SqlStore.SqliteConversationMemory.GetHistory | core/memory.py:262-271 | the messages of exactly the rows of one conversation, none missing and none of another, in ascending id order |
| SqlStore.SqliteConversationMemory.Append | core/memory.py:273-282 | two commits, with exactly the inserted and then the pruned table; ids keep ascending |
| SqlStore.SqliteConversationMemory.AppendCut | core/memory.py:273-324 | an append that raises after its first commit: the inserted table is what is committed, and part of a pass is what is seen |
| SqlStore.SqliteConversationMemory.PruneLocked | core/memory.py:290-324 | count, delete-by-ids and the re-query loop together delete exactly the rows before the window, in one commit |
| SqlStore.TrimSparesOthers | core/memory.py:300-322 | deleting one conversation's oldest ids leaves every other conversation's rows as they were |
| SqlStore.TrimTakesOldest | core/memory.py:300-308 | deleting the first k selected ids leaves the selection without its first k rows |
| SqlStore.PrunedTouchesOne | core/memory.py:290-324 | a pass over the shared table prunes one history, spares all others, and keeps ids unique and ascending |
| SqlStore.PartlyPrunedTouchesOne | core/memory.py:290-324 | the same for a pass that stops half-way: part of one history goes, no other is touched |
| Simulation.SqlRunTied | core/memory.py:273-324 | invariant of every interleaved run with appends stopped anywhere: pruning the stored rows gives the window of the whole log, and where nothing is cut short the rows are that window already |
| Simulation.SqlRunReplays | core/memory.py:262-324 | over every run the shared table, with its ids and deletes, returns for each conversation what a history kept for it alone would be |
| Simulation.MemRunWindowed | core/memory.py:129-154 | invariant of every run of the in-memory store: each history is the window of its whole log |
| Simulation.StoresAgree | core/memory.py:262-324 | over every run the SQL store returns what the in-memory store returns where nothing is cut short, and what is costs nothing a prune does not restore |
| Simulation.CrashHeals | core/memory.py:281-324 | an append cut short, by a crash or in the middle of its pass, is healed by the next append or prune of the conversation |
| Simulation.CrashedExactly | core/memory.py:273-282 | what is read in every state of a run with crashes: the window of what was said up to the last whole operation, then everything cut short since |
| Simulation.BrokenIff | core/memory.py:262-282 | exactly when a history read after crashes opens with an answer, and when it is longer than the window |
| Simulation.CrashBreaksOrder | core/memory.py:276-282 | a run that ends with an answer in front |
| Simulation.CrashBreaksSize | core/memory.py:276-282 | for every window size, a run that ends with more messages than the window holds |
| Simulation.AlwaysUserFirst | core/router.py:361-369 | with a window of at least one, and every answer appended right after its question, every history read in any state opens with a user message, whatever crashes, and whatever passes stop half-way whose size cut lands on a user message |
| Simulation.InterruptionSafeIff | core/memory.py:273-322 | the next append of such a run can be cut short anywhere without an answer in front if and only if it does not exceed the window or the size cut lands on a user message |
| Simulation.TornPassBreaksOrder | core/memory.py:299-322 | a run of that kind, with one pass stopped after the size cut instead of a crash, that ends with an answer in front |
| Simulation.StepIsLocal | core/memory.py:52-58 | no event of one conversation changes a row of another |
| Snapshots.WhenGenerationsSurvive | core/memory.py:466-472 | at every point of a write, whatever state the live database is in: which points still have a healthy generation, both ways, and that no damaged copy appears in a generation |
| Snapshots.SafeToWriteIff | core/memory.py:431-472 | whatever state the live database is in, every fault plan and stopping point keeps a healthy generation if and only if no damaged current snapshot is present |
| Snapshots.DatabaseFiles.WriteSnapshot | core/memory.py:431-472 | where the generations end under every fault, that every state on the way is such a point and keeps a healthy generation if the current one was healthy, and that only verified copies are installed |
| Snapshots.DatabaseFiles.MakeCopy | core/memory.py:445-456 | a checked temporary copy, of the rows of a healthy database or of what could be salvaged from a damaged one, exists exactly when clearing, vacuum and check succeed; nothing else changes |
| Snapshots.DatabaseFiles.Rotate | core/memory.py:466-472 | the two renames and their failure branches, with every state between them |
| Snapshots.DatabaseFiles.SetAside | core/memory.py:393-402 | the database and both companions end under their quarantine names if and only if all moves succeed; the damaged bytes exist at every point |
| Snapshots.DatabaseFiles.RestoreNewest | core/memory.py:406-429 | the current snapshot is put in place if it is healthy and can be copied, the previous one only if that one cannot be used, and nothing only if neither can, with a state in which the copy is under way |
| Snapshots.DatabaseFiles.Recover | core/memory.py:378-429 | at every point: nothing is put in place before all three files have moved, what is put there is a usable generation, whole or under way, and generations and older quarantines are untouched; at the end the current snapshot stands there if usable, else the previous one, else nothing |
| Snapshots.InterruptedRecoveryIff | core/memory.py:393-429 | what the next open finds after a recovery cut off at any point is what there was to recover if and only if a database that is not empty was left, or that was nothing more than the next open makes of what was left |
| Snapshots.RecoveryAtomicIff | core/memory.py:393-429 | every point of a recovery is such a point if and only if there was no row to recover and no write-ahead log |
| Snapshots.RecoveryInterrupted | core/memory.py:243 | a run in which a crash during recovery, the start after it and the stop after that leave no healthy copy of a row |
| Snapshots.DatabaseFiles.Attach | core/memory.py:243-251 | verify, recover, connect: a healthy database is taken as it is, a damaged one that moves gives way to the current snapshot, else the previous one, else an empty one, a missing one is created empty; the result is healthy unless a damaged one could not be moved |
| Snapshots.DatabaseFiles.Open | core/memory.py:224-253 | the connection is to a healthy database if and only if the file was not both damaged and impossible to move; a healthy one keeps its rows and is never set aside; a damaged one that moves is kept and replaced by the current snapshot, else the previous one, else an empty one; one that does not move is opened as it is, or open fails; without write faults the result is on record as the current snapshot; wherever it is cut off the generations hold captured contents |
| Snapshots.DatabaseFiles.Close | core/memory.py:255-260 | a clean close of a healthy database leaves its rows as the current snapshot and the one before as the previous; a damaged one gives what can be copied, after a failed open too; wherever it is cut off the generations hold captured contents |
| Snapshots.SurvivesDamage | core/memory.py:224-260 | after a fault-free stop and any damage to the database, the next start has the rows of that stop |
| Snapshots.FallsBack | core/memory.py:406-429 | if the current snapshot is damaged too, it has the rows of the snapshot before |
| Snapshots.DatabaseFiles.Crash | core/memory.py:224-260 | a death at any state the last operation went through keeps the invariant: a healthy generation holds what a verified copy held |
| Snapshots.SalvagedOverGood | core/memory.py:246-253 | a run without write faults that leaves no healthy copy of a row in either generation |
| Snapshots.DamagedOverGood | core/memory.py:466-472 | a run with one failed rename that leaves no generation that could be restored |
| Wire.ToAssistantMessage | core/llm.py:160-182 | the reply is replayed block by block |
| Wire.CallsOfReply | core/llm.py:155-182 | replaying a reply keeps exactly its calls, in order |
| Wire.PartsOfReply | core/llm.py:150-158 | the calls and the texts of a reply are those of its parts, in order |
| Wire.OneText | core/llm.py:150-153 | a reply with one text among its blocks says that text without the white space around it |
| Wire.OneMoreText | core/llm.py:150-153 | a further text is said after a blank line |
| Wire.ToolsAreSilent | core/llm.py:150-153 | tool blocks add nothing to what is said, wherever they stand |
| Wire.ReplyTextKeeps | core/llm.py:150-153 | of the texts joined by blank lines only white space at the two ends is lost |
| Wire.ReplyTextEmptyIff | core/llm.py:150-153 | a reply says nothing if and only if all its texts are blank |
| Wire.RoundsGrow | core/router.py:424-431 | a transcript extended by an answered call message is a transcript |
| Router.TurnStats.Record | core/router.py:221-228 | the counts stay those of the turns handled, degraded ones and the last reason included |
| Router.DegradedCounts | core/router.py:221-228 | the tally is the number of turns that ended in a fallback |
| Router.LastReasonIs | core/router.py:221-228 | the reason kept is that of the latest such turn |
| Router.VerdictIff | core/router.py:342-422 | what each reply or failure of the model means for the turn, and that nothing else does |
| Router.OneTextIsTheAnswer | core/router.py:411-420 | a reply that says one thing and does not stop for a tool is answered with that text |
| Router.Router.SwitchedOff | core/router.py:514-529 | a failing gate means nothing is off; a working one is believed exactly |
| Router.Router.ExecuteTool | core/router.py:439-486 | one result with the id of the call, telling what really became of it: its output, the error it raised, switched off, or unknown |
| Router.Router.ExecuteAll | core/router.py:428-430 | every call of a reply is dealt with once, in order, and the k-th result tells under the id of the k-th call what became of it |
| Router.Router.RunAgenticLoop | core/router.py:378-437 | at most max_tool_iterations requests, each extending the last by the verbatim reply and, for each of its calls, the result that tells what became of it; no other call is dealt with; the last outcome decides the answer |
| Router.Router.Consult | core/router.py:330-349 | an unreadable history costs context only; all requests of the turn, the results in them and the answer are as the loop promises, and they open with a user message exactly when the history read does |
| Router.Router.Remember | core/router.py:361-374 | both messages are filed, or only the question, or neither, and what an append that raises leaves of its pass; the table stays in order unless a pass stopped half-way |
| Router.Router.Handle | core/router.py:299-376 | the turn as a whole, over the SQL store and any table it starts on: requests and results as the loop promises, histories open with a user message unless a pass stopped half-way, degraded turns leave no trace, tallies are exact, an answer is filed whole or cut where an append raises |
| Router.GateRespected | core/router.py:404-411 | over all events of all turns: each offer and each call directly follows a gate read of its own; exactly the registered tools it left on are offered, once each, in order, and nothing rather than an empty list; a tool runs only while on, unless that very read failed; no protected tool is withheld or refused |
| Router.NothingOffRuns | core/router.py:457-470 | with a gate that always answers, no tool ever runs while it is off |
| Router.ProtectedIsOffered | core/router.py:531-548 | a protected tool that is registered is offered whatever is off |
| Router.HistoryIsLastExchanges | core/router.py:351-374 | while no append raises, a conversation that was empty at the start is exactly its last max_messages/2 answered exchanges, whatever degraded turns lie between |
| Groq.ToGroqMessages | core/llm.py:686-764 | the loop computes the message-by-message translation |
| Groq.AppendUserBlocks | core/llm.py:745-762 | results become messages of their own, before any prose |
| Groq.ProseOfParts | core/llm.py:745-762 | the prose of a message is that of its parts with a blank line between, and no other block adds any |
| Groq.TranscriptPaired | core/llm.py:686-764 | in the translation of any transcript of the router every assistant message with k calls is followed at once by k tool messages with the same ids in order, and tool messages occur nowhere else |
| Groq.TranslationPaired | core/llm.py:686-764 | the same for every conversation whose calls and results are paired, with prose beside the results too: results come out first |
| Groq.TranslationReadsBack | core/llm.py:686-764 | decoding the translation of any such conversation gives what each message said, in order |
| Groq.TranscriptWellPaired | core/router.py:397-431 | the transcripts the router builds are conversations of that kind |
| Groq.TranscriptReadsBack | core/llm.py:686-764 | a decoder reads the transcript back, up to joined text blocks, empty versus null and the dropped error flag |
| Groq.FromGroqMessage | core/llm.py:767-807 | text first, then a block for each call with its id and name and the very object its arguments decode to; what is absent, empty, malformed or no object gives no arguments; never no block at all; the stop reason mapped |
| Groq.ReplyRoundTrip | core/llm.py:721-807 | a Groq reply turned into blocks, replayed and translated back is the same reply, with arguments that decode to the same objects |
| ToolState.SinceIsUninterrupted | tools/toolstate/store.py:140-150 | a tool has been off since t exactly when it was switched off at t and nothing has switched it since |
| ToolState.ToolStateStore.Disable | tools/toolstate/store.py:156-182 | protected names never enter the table, and a tool already off keeps its moment |
| ToolState.ToolStateStore.Enable | tools/toolstate/store.py:184-198 | one call clears any row, and only that row |
| ToolState.ToolStateStore.DisabledSince | tools/toolstate/store.py:140-150 | the recorded moment agrees with the history of all changes |
| Removal.MarkersDiffer | tools/toolstate/tools.py:86-96 | for names without blanks, one tool's marker opens another tool's request only if they are the same |
| Removal.MarkersClashIff | tools/toolstate/tools.py:86-96 | exactly when a request for one tool opens like a request for another: one name holds the other and the closing words |
| Removal.BlanksClash | tools/toolstate/tools.py:86-96 | for every tool name, other names for which it does |
| Removal.UniqueKeptIff | tools/toolstate/tools.py:147-168 | of all queue operations exactly a request or an advance that doubles an open removal breaks uniqueness |
| Removal.UniqueThroughoutIff | tools/toolstate/tools.py:147-168 | over every run, at most one open removal job per tool holds all along if and only if no such operation occurs |
| Removal.OrdinaryRunUnique | tools/toolstate/tools.py:86-168 | for names without blanks: if removals are filed only where none is open, no other request opens like one and no closed job is advanced, no tool ever has two open removal jobs |
| Removal.AskedTwice | tools/development.py:109-119 | two requests in the words of a removal: a run that has two |
| Removal.AdvancedAgain | core/tasks.py:234-266 | a removal finished, filed again and then advanced: a run that has two |
| Removal.RemoveTool.ExistingJob | tools/toolstate/tools.py:86-96 | finds an open removal job of the tool if and only if there is one |
| Removal.RemoveTool.Run | tools/toolstate/tools.py:98-163 | every job ever filed had its tool off for an hour without a break, and its request names the tool and gives the reason; repeated requests never restart the wait; uniqueness is kept |
| Removal.RemoveTool.AskForRemoval | tools/toolstate/tools.py:131-163 | too soon exactly while less than an hour has passed, then the existing job or a new one |
| Removal.FilingsSurvive | tools/toolstate/tools.py:131-163 | later changes to the switch table never invalidate a filing |
| Removal.EnableTool | tools/toolstate/tools.py:196-205 | restores any tool that is off, and says whether it was |
| Tasks.ApplyPreserves | core/tasks.py:151-325 | every operation keeps ids ascending, status and columns consistent, and every row with its number, request and date |
| Tasks.RunPreserves | core/tasks.py:59-84 | in every reachable state waiting means no answer, queued means an answer or an untouched new job, done means deployed; nothing recorded earlier in the run is lost |
| Tasks.OpenIsQueuedPlusWaiting | core/tasks.py:179-232 | the open jobs are the queued and the waiting ones, none twice and none left out |
| Tasks.WithStatusAscends | core/tasks.py:327-348 | a status query answers in ascending id order |
| Tasks.ClosedUntouchedIff | core/tasks.py:234-325 | an operation leaves every finished or dropped job alone unless it advances, finishes or abandons one by its number, and then, later than all before it, it does not |
| Tasks.ClosedUntouchedInRunIff | core/tasks.py:234-325 | the same for every step of every run by a clock that moves on |
| Tasks.FinishedThenAdvanced | core/tasks.py:234-266 | a run from the empty queue in which a finished job is put back to work |
| Tasks.TaskStore.CreateJob | core/tasks.py:151-177 | a blank request is refused, any other is kept, trimmed, under a number no row has |
| Text.StripKeepsWords | core/tasks.py:164-166 | stripping leaves nothing exactly of a text that is all white space, so only blank requests are refused |
| Text.StripIs | core/tasks.py:164-166 | what is left of a text with white space around it is that text |
| Tasks.TaskStore.RecordAnswer | core/tasks.py:187-211 | recorded if and only if the answer is not blank and the job is waiting; that row then holds the answer, trimmed, and no other changes |
| Tasks.TaskStore.Advance | core/tasks.py:234-262 | the job holds the stage and the question and waits without an answer; no other changes |
| Tasks.TaskStore.Finish | core/tasks.py:264-325 | the job is done and deployed with the remark; no other changes |
| Tasks.TaskStore.Abandon | core/tasks.py:276-293 | the job is dropped with the reason and keeps its stage and answer; no other changes |
| Tasks.AnswerReachesDeveloper | core/tasks.py:187-262 | a question put on any job and the answer to it come back among the queued jobs with the stage, the question and the words of the answer |
| Development.AnswerQuestion | tools/development.py:245-259 | the three outcomes, that a recorded answer stands in the job with that number, and that nothing changes unless it was recorded |
| Development.AbandonDevelopment | tools/development.py:296-327 | drops exactly an open job, keeps its row with the words of the reason, and alters no other |
| Retry.PausesSum | core/retry.py:34-89 | doubling pauses add up to the next one minus the first |
| Retry.PausesClosedForm | core/retry.py:34-65 | a ladder that makes k attempts pauses base*(2^(k-1)-1) in all |
| Retry.BudgetClosedForm | core/retry.py:68-89 | the budget at attempt a is base*(2^(m-1)-2^(a-1)) |
| Retry.RemainingBackoff | core/retry.py:68-89 | the budget is the sum of the pauses the rest of the loop would make |
| Retry.Climb | core/llm.py:375-445 | which failures are worth another attempt and which end the ladder: 5xx against 4xx, and a rate limit exactly unless it asks for longer than base*(2^(m-1)-2^(a-1)); pauses start at base and double; a ladder climbed to the end has waited as long as each rate limit asked; the error is the quota error exactly when the last failure was a rate limit |
| Splitter.SplitMessage | adapters/telegram.py:269-303 | ends for every text, every chunk within the limit, the last one not empty, few chunks, each cut where the rule says |
| Splitter.CutOnce | adapters/telegram.py:287-301 | where the last newline of the window makes the cut, before the second of two, after a single one, or at the limit, and the chunk each leaves |
| Splitter.CutsConserve | adapters/telegram.py:285-303 | nothing is lost between the cuts and what is left is never empty |
| Splitter.CutsUnique | adapters/telegram.py:287-301 | the cutting rule leaves no choice: a text has one decomposition |
| Splitter.CutsAreFew | adapters/telegram.py:287-301 | every piece is at least max(1, limit/2) characters, which bounds their number |
| Splitter.OnlyWhiteSpaceIsDropped | adapters/telegram.py:292-301 | the text is its chunks in order with only white space between them |
| Facts.NormaliseIdempotent | tools/facts/store.py:146 | collapsing white space twice is collapsing it once |
| Facts.NormaliseKeepsWords | tools/facts/store.py:146 | all words are kept in order, and two texts are stored alike if and only if they have the same words |
| Facts.FactStore.GetActive | tools/facts/store.py:207-216 | exactly the facts not forgotten, in ascending id order |
| Facts.FactStore.Remember | tools/facts/store.py:134-181 | the five outcomes and when each occurs; an active fact that differs in case at most is found, and remembering it again changes nothing |
| Facts.FactStore.RememberCleaned | tools/facts/store.py:155-181 | at most fifty active facts, pairwise different up to case, ids ascending, rows never lost |
| Facts.FactStore.Forget | tools/facts/store.py:183-205 | stamps exactly the active fact with that number, with the moment given |
| Facts.ForgottenForGood | tools/facts/store.py:183-216 | over every run of remembering and forgetting, a number forgotten in any state is never active in a later one |
| Facts.RunPreserves | tools/facts/store.py:134-205 | in every reachable state at most fifty active facts, pairwise different up to case; every earlier row is still there, unchanged or forgotten |
| Facts.Pack | tools/facts/tools.py:140-149 | the kept lines are in order and within 4000 characters, kept plus dropped account for every fact, and no dropped line would fit in what is left |
| Facts.TotalIsLength | tools/facts/tools.py:140-149 | the room counted is the length of the text the lines make together |
| Facts.LineNamesFact | tools/facts/tools.py:140-149 | the number in a line reads back as that of its fact, and the rest is its text |
| Facts.Snapshot | tools/facts/tools.py:134-164 | the packed lines of the active facts, and a last line with the number of those left out when there are any |
| Facts.FiftyOrdinaryFactsFit | tools/facts/store.py:40-55 | with at most fifty facts and lines of at most eighty characters nothing is dropped |

## Left out

- Network and SDK calls, polling, HTTP, logging, prompts and the wording of replies: text and I/O without an invariant.
- `Router.__post_init__`: duplicate tool names are rejected there; nothing proved here depends on it.
- `_system_prompt_now`, `_quota_message`, `TurnStats.summary` and the clock of the last degraded turn: no state that a proof needs.
- `_to_groq_tools`, `_to_response` and the Anthropic client: a field renaming and a filter.
- `TaskStore.advance` refusing an unknown stage: the stages are a datatype here.
- Two recoveries within one second share a quarantine name, and the later one replaces the earlier: `Recover` promises only that names of other moments are untouched.
- `chmod` on a snapshot: it changes no contents and its failure is ignored.
- `shutil.copy2` failing, rather than being cut off by a crash, after it has written part of its target: excluded by hypothesis.
- Recovery when the database could be moved but a companion could not: nothing is restored, and what a stray write-ahead log adds to the new file is left open.
- The heartbeat row, the listing texts and `DevelopmentContext`: reads only.
- UTF-16 length of chunks: the source counts characters, and so does the model.
- Telegram's own retry loop `_send`: the same pauses as the ladder, with other error classes.
- Router.HistoryIsLastExchanges: speaks of a conversation that starts empty and of appends that all succeed; otherwise `Router.Valid` and `Handle` say what is left.
- Router.Router.Handle: gives up the order of the histories at any pass that stopped half-way, also where `InterruptionSafeIff` says that nothing is lost.
- A transaction left open by a statement that failed: what it deleted shows at once in the model; when it is committed is left open.
- A router turn cut short by the death of the process: the router starts again on whatever table is left, as its constructor allows.
- Groq.TranscriptReadsBack: takes the JSON codec as given.
- Two stores over one table from different connections: the switch table and the queue are each changed by one store.
