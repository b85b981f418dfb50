# GenQL, modelled and proved in Dafny

GenQL turns a question into SQL, asks back when the question is unclear, and runs
the statement within a cost budget. This project models the five places of the
repository where the logic is its own and not a library's, and proves what holds
of them over every input, every run and every interleaving.

* **SQL formatter** (`sql_*.dfy`): the hand-written scanner and the stack-driven
  printer of `sql-format.ts`. `SqlLexer` and `SqlPrinter` define what they compute,
  `SqlScanner` holds the loops and the mutable line buffer and proves them equal to
  those definitions, `SqlLayout` shows that the output is a weave of the tokens and
  of blank gaps, and `SqlRoundTrip`, `SqlTheorems`, `SqlSettling`, `SqlStability` and
  `SqlShape` hold the results. `SqlKinds` tells the tokens a second time, from the text
  alone, `SqlReference` the layout, from the tokens alone, and `SqlLines` which words stand
  first on their lines.
* **Query turn** (`query_*.dfy`): thirteen nodes, their routers, the interrupt and
  the resume as a state machine on `QueryState`. Every answer of a model, the
  warehouse or the database is a field of an `Oracle`, another one for every visit;
  it may also be a failure, with one of GenQL's own errors or with any other exception.
  `QueryNodes` tells what one visit decides, `QueryTerminals` what the last event of a
  stream says; `QueryHistory` is what a thread keeps of its turns, with an answer of the
  database for every write, and `QueryThreads` puts whole conversations into their threads.
* **Ingestion queue** (`ingestion_*.dfy`): the job table with claim, report,
  finish, crash, sweep and retry as steps of a timed protocol with any number of
  workers; `IngestionReports` says what the recorded statuses mean, `IngestionStore` is the
  same table as an object that methods update, and `IngestionEvents` holds the two progress
  streams.
* **Event reader** (`sse_*.dfy`): the buffer of `readEventStream`, fed by arbitrary
  chunks. `SseLines` shows that it goes line by line, `SseStandard` holds it against
  section 9.2.6 of the WHATWG HTML Living Standard, and `SsePieces` and `SseAgreement`
  say for which texts the two agree.
* **Result comparator** (`result_comparator.dfy`): `compare` as an equivalence.

`dafny verify dfyconfig.toml` checks everything.

## Where the code and its documentation differ

* The formatter says that it only ever moves whitespace and that the output means
  exactly what the input meant. Characters survive (`FormatKeepsCharacters`), tokens
  need not: `1 .` is printed `1.`, which is one number. `FormatReadsBack` gives the
  exact condition, `NoClash`, on the tokens of the source, and `FormatSettles` says
  that any second pass is free of the defect. Formatting twice can differ from
  formatting once; `FormatIsStableExactly` says for which sources it does not.
* The event reader says that it handles the wire format in full. An event whose name is
  empty keeps it, where the standard says `message` (`EmptyNameIsKept`), and a carriage
  return alone does not end a line (`LoneReturnIsKept`). On texts without a lone carriage
  return nothing else differs (`ReaderFollowsStandard`). On texts with one,
  `ReaderFollowsExactly` gives the exact condition, frame by frame: the standard dispatches
  under the same names and finds as many data lines, and no event received holds a carriage
  return.
* The query stream promises exactly one terminal event, and an event even for a failure.
  It catches GenQL's own errors only. Probes that agree on a candidate that does not
  exist make selection raise an `IndexError`, and the stream just stops
  (`StrayProbesStopTheStream`). `UncaughtExactly` and `RunIsUncaughtExactly` say exactly
  when; it cannot happen with a question budget below the contested threshold, as in the
  defaults.
* The query stream says that a history write that fails must not swallow a turn the user
  already watched succeed, and `record_turn` that the first turn on a thread always has a
  datasource. A resumed turn passes none. If its question was asked where no history is
  kept, as on the command line, or could not be saved, the answer is the first turn to be
  recorded: an `AssertionError` leaves the generator, and no terminal event follows
  although the turn has its rows (`UnsavedQuestionStopsItsAnswer`, under the default
  budget). `RecordingIsExact` and `BudgetKeepsStreamsProper` say exactly when: if and only
  if no question of the thread was saved. Listing a thread's turns and touching the thread
  also let database exceptions through as they are, which stops the stream likewise
  (`StreamEndsExactly`).
* `_critique_already_decisive` says that skipping the probes changes no selection, and
  that a fatal candidate was never going to be selected whatever a probe found. Neither
  holds: probes that agree outrank critique (`ProbesMayPickFatal`, `FatalIsSelected`,
  `FatalIsSelectedExactly`), and no reports and no margin make the skip safe unless all
  candidates are copies of one another (`SkippingProbes`).
* `record_step` says that a row lock serialises it; its SELECT takes none. The model
  treats the read and the write as one step.
* `_fail` says that re-reading the job makes `error_step` accurate. It does when a
  step raised; when the run fails before its first step, the step recorded is one an
  earlier job left failed, if there is one (`ErrorStepIsAccurate`).
* A job that succeeds need not have all steps done: a step that was running when its
  worker died is never taken up again (`CrashInsideStepIsNeverRedone`), and a retry
  that read the latest job while a step of it ran inherits that running step
  (`RetryRaceInheritsRunningStep`). `WonMeansDoneUnlessTainted` says exactly which
  jobs are complete.
* The worker's clock starts at the claim and is never renewed. Workers own their jobs
  throughout if and only if no sweep finds a live run older than the limit
  (`OwnedExactlyWhenPrompt`); otherwise two can share one (`SlowRunIsShared`), and the
  slower one overwrites a job that the other has finished (`StaleWorkerOverwrites`).
* The progress streams promise one event per observable change and exactly one terminal
  event. The feed compares statuses per datasource, not jobs, so a second job that ends
  as the first one did between two polls goes unannounced (`FeedIsExact`,
  `QuickRetryIsSilent`); and a read that raises ends the job stream without a terminal
  event (`EndsOnce`).

## Model

| member | source | states |
|---|---|---|
| SqlTokens.TokensLoseNothing | apps/web/lib/sql-format.ts:120-218 | for every string the token texts concatenate to it and no token is empty |
| SqlTokens.PeekIsHonest | apps/web/lib/sql-format.ts:96-118 | the lookahead loop over raw text finds the first character of the next token that is neither blank nor comment |
| SqlTokens.ScanIsCoherent | apps/web/lib/sql-format.ts:124-218 | every scan yields a list in which each text is one lexeme, and only the last may lack its closing mark |
| SqlKinds.KindsAreTold | apps/web/lib/sql-format.ts:124-218 | for every text and each of its tokens, blanks included, each of the nine kinds is an if and only if on the token's first characters, the word lists and the next code behind it: a word not called is a keyword exactly if it is reserved, else an identifier |
| SqlKinds.TokensReach | apps/web/lib/sql-format.ts:124-218 | for every text each token reaches as far as its sort allows: runs take all they can, a quoted run holds its content with every quote doubled, a comment ends with its first closing mark |
| SqlKinds.CharactersAreSorted | apps/web/lib/sql-format.ts:84-94 | every visible ASCII character but the backslash begins tokens of exactly one sort |
| SqlKinds.UpperIgnoresCase | apps/web/lib/sql-format.ts:190 | two words are looked up alike if and only if they differ in case only |
| SqlKinds.PrintedWordsAreReserved | apps/web/lib/sql-format.ts:34-53 | every word that the printer lays out is a reserved word, so the scanner marks it as one |
| SqlKinds.NeverFunctionsAreReserved | apps/web/lib/sql-format.ts:49-53 | every word that is never a function is reserved, so with a parenthesis behind it it keeps its keyword kind |
| SqlShape.FunctionsAreCalls | apps/web/lib/sql-format.ts:187-197 | a word has kind function if and only if the next token that is no comment opens a parenthesis and the word never is a function |
| SqlScanner.PeekSignificant | apps/web/lib/sql-format.ts:97-118 | the index loop returns the lookahead that the token lemmas are about |
| SqlScanner.ScanQuoted | apps/web/lib/sql-format.ts:156-172 | the loop over doubled quotes stops where the quoted run ends |
| SqlScanner.ScanNumber | apps/web/lib/sql-format.ts:174-185 | the loop over digits, dots and one exponent stops where the number ends |
| SqlScanner.TokenizeSql | apps/web/lib/sql-format.ts:124-218 | the index-driven scanner produces exactly the token list of the input, which `KindsAreTold`, `TokensReach` and `TokensLoseNothing` determine |
| SqlScanner.LineBuffer.FlushLine | apps/web/lib/sql-format.ts:277-280 | a line is kept, without its trailing blanks, unless it is blank; the buffer is emptied |
| SqlScanner.LineBuffer.OpenLine | apps/web/lib/sql-format.ts:281-284 | the pending line is finished and a new one starts at the indent |
| SqlScanner.LineBuffer.AppendText | apps/web/lib/sql-format.ts:285-287 | text is added with one blank before it only where the line already shows something |
| SqlScanner.PrintStep | apps/web/lib/sql-format.ts:289-394 | one turn of the mutating loop is one step of the printer's state machine |
| SqlScanner.FormatSql | apps/web/lib/sql-format.ts:263-405 | the formatter with its stack and buffer computes the text that `FormatIsLaidOut` and the lemmas of `SqlLines` determine |
| SqlLayout.PrintIsWeave | apps/web/lib/sql-format.ts:289-396 | whatever the stack does, the output is the tokens in order with blank gaps, each suiting the two tokens it separates |
| SqlRoundTrip.GapStops | apps/web/lib/sql-format.ts:387-392 | a gap the printer may leave makes the scanner stop after the left token, unless the two tokens clash |
| SqlRoundTrip.WeaveReadsBack | apps/web/lib/sql-format.ts:8-15 | scanning any weave of coherent tokens with fitting gaps gives the tokens back if and only if no neighbours clash |
| SqlTheorems.NeverFallsBack | apps/web/lib/sql-format.ts:396-401 | on non-blank input the printer's own text is returned and is not blank |
| SqlTheorems.OnlyBlanksMove | apps/web/lib/sql-format.ts:8-10 | the output is the source's token texts in order with only blanks between them |
| SqlReference.FormatIsLaidOut | apps/web/lib/sql-format.ts:257-394 | the output is each token behind the line break, indent or blank that the tokens around it call for, a layout told without stack, buffer or loop |
| SqlLines.SourceKinds | apps/web/lib/sql-format.ts:187-197 | of the tokens that are printed, each kind follows from its text and the next code behind it |
| SqlLines.ClauseExactly | apps/web/lib/sql-format.ts:337-348 | a keyword begins a clause if and only if it stands in a statement, goes on with no join, and is a clause word, a group or order before by, or a join word that opens one |
| SqlLines.ClauseStandsFirst | apps/web/lib/sql-format.ts:337-353 | in the formatted text a word that is not called and begins a clause stands first on its line, two blanks in per open parenthesis |
| SqlLines.ConditionStandsFirst | apps/web/lib/sql-format.ts:369-376 | a join condition or further predicate of a statement stands first on its line, one step in |
| SqlLines.SelectItemStands | apps/web/lib/sql-format.ts:354-367 | the first item of a select list stands on a line of its own, one step in |
| SqlLines.ListItemStands | apps/web/lib/sql-format.ts:321-328 | behind a comma an item stands on a line of its own if the list is the statement's, else behind one blank |
| SqlLines.CallStandsTight | apps/web/lib/sql-format.ts:304-312 | a parenthesis stands tight behind the name it calls |
| SqlLines.HeldStandsTight | apps/web/lib/sql-format.ts:380-388 | what a parenthesis holds, if it is no statement, and what a dot qualifies, stand tight behind it |
| SqlLines.SelectIsLaidOut | apps/web/lib/sql-format.ts:257-262 | `SELECT a FROM b` becomes three lines |
| SqlTheorems.FormatReadsBack | apps/web/lib/sql-format.ts:8-15 | tokenizing the formatted text gives the source's tokens, kinds and texts, if and only if no number meets a dot; trailing blanks aside, of line comments and of an unterminated last token |
| SqlStability.FormatIsStableExactly | apps/web/lib/sql-format.ts:263-405 | formatting formatted text changes nothing if and only if every glued run of the source's tokens stands where a number would: decided by the tokens before and behind each run |
| SqlStability.SameGap | apps/web/lib/sql-format.ts:285-394 | as long as the layouts of the source and of its formatted text run in parallel, the next gap is the same exactly where no glued run does harm |
| SqlStability.NoClashNoHarm | apps/web/lib/sql-format.ts:263-405 | a source without a number next to a dot meets that condition |
| SqlStability.ClashMayBeHarmless | apps/web/lib/sql-format.ts:174-185 | `1 . 5` meets it too, although its tokens do not survive |
| SqlSettling.WeaveIsCalm | apps/web/lib/sql-format.ts:174-185 | whatever glued tokens are read as, exponents that split words included, no two of the tokens read clash |
| SqlSettling.FormatSettles | apps/web/lib/sql-format.ts:8-15 | with no condition, formatting is stable from the second pass on, and the second pass reads back as the first |
| SqlSettling.OnePassMayNotSettle | apps/web/lib/sql-format.ts:337-341 | one pass is not always enough: `1 . *` becomes `1.*`, and that becomes `1. *` |
| SqlShape.FormatKeepsCharacters | apps/web/lib/sql-format.ts:8-10 | every non-blank character survives in order and none is added, with no condition |
| SqlShape.StackFollowsParentheses | apps/web/lib/sql-format.ts:271-328 | the stack is never empty, its height follows the nesting even with unbalanced closing parentheses, and the k-th frame sits at indent k |
| SqlShape.SpacedDotIsLost | apps/web/lib/sql-format.ts:337-341 | the round trip fails for the input `1 .` |
| SseReader.ParseFrame | apps/web/lib/sse.ts:30-50 | the loop over lines computes the event of a frame, or none without data |
| SseReader.ReadEventStream | apps/web/lib/sse.ts:79-100 | for every list of chunks the events are those of the concatenated text read at once |
| SseReader.BoundaryIsFinal | apps/web/lib/sse.ts:88-98 | later characters neither move nor lengthen a complete leftmost blank-line match |
| SseReader.DrainMore | apps/web/lib/sse.ts:83-99 | what is left in the buffer yields, with more text, what the whole text would have yielded next |
| SseLines.ReaderGoesByLines | apps/web/lib/sse.ts:79-100 | cutting at blank lines and parsing whole frames comes to reading one line at a time, for every text |
| SseStandard.ReaderFollowsStandard | apps/web/lib/sse.ts:10-12 | for every text without a lone carriage return the reader yields the standard's events but for empty names, and so follows it if and only if no event it yields has one |
| SseStandard.EmptyNameIsKept | apps/web/lib/sse.ts:31-44 | an empty name stays empty where the standard says `message` |
| SseStandard.LoneReturnIsKept | apps/web/lib/sse.ts:34-36 | a carriage return alone ends a line for the standard and not for the reader |
| SsePieces.AgreementIsLocal | apps/web/lib/sse.ts:79-100 | for every text, reader and standard agree if and only if they agree on each frame with its blank line, and on what is left, taken alone |
| SsePieces.AtLeastAsMany | apps/web/lib/sse.ts:10-12 | for every text the standard yields at least as many events as the reader |
| SseAgreement.ReaderFollowsExactly | apps/web/lib/sse.ts:10-12 | for every text, lone carriage returns included, the reader follows the standard if and only if in each piece the same names are dispatched and, if any, as many data lines are found and no event of the reader holds a carriage return |
| SseRoundTrip.ReceivedAsSent | apps/web/lib/sse.ts:30-100 | any messages written with any mixture of LF and CRLF and cut into any chunks are received as sent |
| QueryGate.CollectDefaults | genql/services/query/ambiguity_gate_service.py:206-217 | the dictionary loop computes the defaults the lemmas are about |
| QueryGate.FirstRuleWins | genql/services/query/ambiguity_gate_service.py:206-217 | the first rule of each listed dimension is its default |
| QueryGate.RecordScores | genql/services/query/ambiguity_gate_service.py:113-121 | the two loops record the model's scores and settle what it left out at 0 |
| QueryGate.AssertionsHold | genql/services/query/ambiguity_gate_service.py:152-176 | neither assertion fails, for all rules, links, answers, earlier scores and replies |
| QueryGate.QuestionIsFresh | genql/services/query/ambiguity_gate_service.py:78-204 | a question asked is real, within the budget, and about a dimension that no rule covers, no answer settled, the schema can express and whose confidence is below the threshold |
| QueryGate.AsksExactly | genql/services/query/ambiguity_gate_service.py:152-204 | if the model answers, the gate asks if and only if an open dimension stays below the threshold, the budget is not spent and a question is worded; it asks about the dimension the model names if that is doubtful, else the first that is, with the model's suggestion and options |
| QueryGate.OpenExactly | genql/services/query/ambiguity_gate_service.py:78-93 | a dimension is open if and only if it is one of the six, no rule names it, no answer settled it, and it is not the time of a schema whose links are all untimed |
| QueryGate.ModelIsNeededExactly | genql/services/query/ambiguity_gate_service.py:99-122 | a failing model ends the turn if and only if some open dimension has no confidence yet or one below the threshold |
| QueryGate.ScoresAreHandedOn | genql/services/query/ambiguity_gate_service.py:122 | an assessment hands on the confidence of exactly those open dimensions that have one |
| QueryGate.AssumedIsDecided | genql/services/query/ambiguity_gate_service.py:63-77 | the assumptions hold every rule's value, decide no dimension twice, and hold a guess only under a spent budget and for an open, unanswered dimension |
| QueryGate.AnswerShrinksOpen | genql/services/query/ambiguity_gate_service.py:16-22 | recording the answer makes the set of askable dimensions strictly smaller |
| QuerySelection.Critique | genql/services/query/critique_service.py:107-122 | exactly one report per candidate, at its own index, whatever indices the model returned |
| QuerySelection.LastReplyCounts | genql/services/query/critique_service.py:107-122 | a report holds the certain defects, and the defects and score of the last reply that names its candidate; without one no more, and 0 |
| QuerySelection.DecisiveExactly | genql/api/query_ambiguity_nodes.py:79-107 | critique is decisive if and only if there is a margin and either one candidate alone is sound, or some candidate in the running has a rival and leads every rival by the margin |
| QuerySelection.RankingIsSound | genql/services/query/candidate_selection_service.py:69-84 | the ranked winner has the best score among reports that are not fatal, the lowest index among equals, and is fatal only if all are |
| QuerySelection.SelectionIsAligned | genql/services/query/candidate_selection_service.py:20-55 | statement and candidate are taken from the same place, negative indices included |
| QuerySelection.RankedWinnerIsNotFatal | genql/services/query/candidate_selection_service.py:37-55 | selection by rank succeeds and never picks a fatal candidate once critique let the turn go on |
| QuerySelection.SelectedFrom | genql/services/query/candidate_selection_service.py:27-55 | a choice fails exactly when its index leads nowhere, negative indices included, and else takes candidate and statement from there; the index is the one that every probe says, or critique's |
| QuerySelection.ProbesDecideExactly | genql/services/query/candidate_selection_service.py:27-67 | whatever critique reports, the choice is the probes' if and only if every probe says one place and it exists, and then the pair there is taken; in every case where they do not agree the choice is that of no probes |
| QuerySelection.InconclusiveExactly | genql/services/query/candidate_selection_service.py:57-67 | the probes do not agree if and only if there are none, one did not resolve, or two differ |
| QuerySelection.CritiqueDecidesExactly | genql/services/query/candidate_selection_service.py:37-84 | without a say of the probes the pair of the best report is taken, the earliest of equals, and never a fatal one unless all are |
| QuerySelection.SkippingProbes | genql/api/query_ambiguity_nodes.py:79-91 | whatever the reports and the margin, the choice is the same under every outcome of the probes if and only if all candidates are copies of the one ranked first |
| QuerySelection.ProbesMayPickFatal | genql/api/query_ambiguity_nodes.py:95-99 | a decisive critique, and probes that would have made a fatal candidate the choice |
| QueryOptimizer.Rewrite | genql/services/query/optimization_service.py:109-136 | the rule loop computes the rewritten text and the reported rules the lemmas are about |
| QueryOptimizer.OptimizeExactly | genql/services/query/optimization_service.py:91-163 | if the statement can be qualified, the text priced is the rendering of its tree behind all rules, one after another, and the rules reported are exactly those that changed the text on the way; if not, the text is the statement and no rule is reported; over budget the model's version is returned if and only if it prices lower |
| QueryOptimizer.VerdictIsHonest | genql/services/query/optimization_service.py:91-163 | the cost reported is the estimate of the statement returned, never above that of the rewritten one, and the verdict and the suggestion follow it |
| QueryOptimizer.UnreportedMeansUnchanged | genql/services/query/optimization_service.py:17-19 | if no rule is reported the text is the one before the rules |
| QueryOptimizer.PlacesAreChanges | genql/services/query/optimization_service.py:131-135 | the reported places are exactly those of the rules that changed the rendered text |
| QueryOptimizer.AppliedIsSubsequence | genql/services/query/optimization_service.py:130-136 | the reported names are the subsequence of the rules at those places, in order |
| QueryNodes.HeadNodesExactly | genql/api/query_turn_nodes.py:40-45 | each node before the gate takes over its service's answer and changes nothing else; only an analytical question goes on |
| QueryNodes.GateExactly | genql/api/query_turn_nodes.py:77-132 | the gate keeps the assessment with its scores and assumptions, goes on to the plan if and only if nothing is left to ask, and settles whether the turn is contested |
| QueryNodes.GenerationExactly | genql/api/query_nodes.py:80-96 | generation takes over the candidates and counts a repair if and only if there are violations |
| QueryNodes.ValidationExactly | genql/api/query_nodes.py:115-157 | exactly the candidates that pass are kept, in order and each with its form; if none passes, the turn goes back with all violations if and only if one can be repaired, no escalation was spent, and it is the first repair or the turn is contested; else it fails |
| QueryNodes.CritiqueExactly | genql/api/query_ambiguity_nodes.py:35-53 | a contested turn with several candidates, all fatally flawed, goes back once and then fails; every other goes on |
| QueryNodes.ProbingExactly | genql/api/query_ambiguity_nodes.py:61-77 | probes are made if and only if the turn is contested, has several candidates and critique was not decisive |
| QueryNodes.SelectingExactly | genql/api/query_ambiguity_nodes.py:114-128 | of an uncontested turn the first candidate is the single survivor; of any other what probes and critique choose |
| QueryNodes.TailNodesExactly | genql/api/query_optimizer_nodes.py:26-37 | the gate's statement is the one on record, it is executed if and only if it is within the budget, and its rows are the result |
| QueryRuns.VisitKeeps | genql/api/query_graph.py:164-197 | every node on every answer keeps the invariant of the graph |
| QueryRuns.FreshInvokeIsBounded | genql/api/query_graph.py:71-126 | one invoke visits at most 17 nodes, generates at most 3 times, once escalated, and critiques at most twice, and then has stopped; one that is never contested 14, 2, 0 and 1 |
| QueryRuns.ResumedInvokeIsBounded | genql/api/query_graph.py:230-247 | a resumed invoke visits at most 15 nodes with the same limits |
| QueryRuns.RunSpends | genql/api/query_nodes.py:139-157 | the budget left at any place bounds the rest of any run, and an escalation is never taken back |
| QueryTightness.FreshBoundsAreReached | genql/api/query_graph.py:71-126 | with a contested threshold of 0, answers exist for which all four bounds are met in one fresh run |
| QueryTightness.ResumedBoundsAreReached | genql/api/query_graph.py:230-247 | with a threshold of 1 and fixed rules, a turn pauses and its resumed run meets 15 nodes, 3 generations, 1 escalated and 2 critiques |
| QueryDialogue.FreshInvokeIsCalm | genql/api/query_turn_nodes.py:86-127 | with a threshold of at least 1 no turn of a fresh invoke is contested, so it has the smaller bounds |
| QueryOutcomes.ExactlyOneOutcome | genql/api/query_turn.py:85-124 | every paused or ended turn reports exactly one of question, intent, narrowing and result, and both dispatches over it are total and agree |
| QueryStream.StageEventStream | genql/api/sse/event_stream.py:79-147 | one stage event per chunk, numbered per node; then, unless the graph raised, the turn is recorded as `record_turn` would; then what the ending calls for: result or clarification from the folded deltas, behind a warning if recording failed with GenQL's own error, error for a caught exception of the graph, nothing for any other |
| QueryStream.AttemptsAreCounted | genql/api/sse/event_stream.py:26-30 | the number of a stage is how many of the chunks up to it are its node's |
| QueryEndings.StreamEndsExactly | genql/api/sse/event_stream.py:3-7 | over every run, fresh or resumed, in any thread: exactly one terminal event at the end, unless a foreign exception ended the run, or an answer is recorded in a thread without saved turns, or a write lets a foreign exception through; then, and only then, none |
| QueryTerminals.TerminalTellsTheOutcome | genql/api/sse/event_stream.py:56-62 | over every run, fresh or resumed, of a stream that ends properly: the last event is a clarification if and only if the run waits, and asks what it waits for; a result if and only if it ran to its end, and delivers what it left; an error if and only if an exception ended it; a warning stands before it if and only if the turn could not be recorded |
| QueryEndings.UncaughtExactly | genql/api/sse/event_stream.py:120-122 | if services raise only GenQL's errors, a visit ends in an uncaught exception if and only if it is selection with probes that agree on a place that does not exist |
| QueryEndings.RunIsUncaughtExactly | genql/api/sse/event_stream.py:120-122 | so does a whole run, if and only if it came to such a selection |
| QueryEndings.StrayProbesStopTheStream | genql/services/query/candidate_selection_service.py:27-36 | a run from the start whose stream never delivers a terminal event |
| QueryHistory.ThreadArchive.Save | genql/api/query_turn.py:148-168 | one call changes the thread's row and turns as the thread lemmas say, and raises what they say, whatever the database answers to each write |
| QueryHistory.RecordingIsExact | genql/api/query_turn.py:148-151 | over the whole life of a thread, an invoke is saved if and only if its writes go through and it, or an earlier invoke, is a question whose writes went through; recording fails on its assertion if and only if an answer is recorded without such a question |
| QueryHistory.HistoryIsWhatWasSaved | genql/api/query_turn.py:148-168 | the history is the saved turns in order, numbered from 0 without a gap, each with its question, statement, clarification, rows and defaults; it begins with a question and its thread has a row |
| QueryHistory.ThreadIsTheFirstOpened | genql/api/query_turn.py:148-154 | the thread's row keeps the datasource and the first 80 characters of the first question that got as far as creating it, saved or not |
| QueryThreads.TransportsRecordAlike | genql/api/query_turn.py:137-142 | a streamed turn, fresh or resumed, leaves the thread as the blocking transport would |
| QueryThreads.KeptUnderItsWords | genql/api/sse/event_stream.py:130-140 | a streamed turn whose writes go through is kept under its question, in a new thread with the datasource it was asked of, or under its answer |
| QueryThreads.BudgetKeepsStreamsProper | genql/core/settings.py:100-116 | with a question budget below the contested threshold, over every conversation in a thread with any past, and with services and writes that raise only GenQL's errors: a question's stream ends with exactly one terminal event; an answer's does unless it is recorded while no question of the thread was saved, and then it has none |
| QueryThreads.UnsavedQuestionStopsItsAnswer | genql/api/sse/event_stream.py:125-147 | under a budget of one question, a question that was not saved, or asked where no history is kept, is answered, the turn gets its rows, its thread can be listed, and its stream has no terminal event |
| QueryStream.FreshStreamAgrees | genql/api/sse/event_stream.py:99-124 | the streamed response of a fresh turn is the blocking one, over every run |
| QueryStream.ResumedStreamAgrees | genql/api/sse/event_stream.py:99-124 | so it is for a resumed turn, whatever question and datasource the stream was started with, although it never loads the earlier state |
| QueryDialogue.DialogueTerminates | genql/api/query_turn_nodes.py:135-168 | no conversation takes more than six answers or more than the budget, to pairwise distinct dimensions, even if rules and links change between rounds |
| QueryDialogue.ResumeRecordsOne | genql/api/query_turn_nodes.py:161-168 | a resumed invoke records exactly its answer, under the dimension that was asked |
| QueryDialogue.GateAsksOpen | genql/api/query_graph.py:25-28 | with fixed rules the gate asks about a dimension that is still open |
| QueryDialogue.ResumeShrinksOpen | genql/api/query_state.py:8-13 | the answer strictly shrinks the open set in the resumed state |
| QueryDialogue.OpenShrinksEveryRound | genql/api/query_graph.py:25-28 | over every conversation with fixed rules the open set strictly shrinks with every answer, so no more is answered than was open at the first pause |
| QueryDialogue.BudgetExcludesContested | genql/core/settings.py:100-116 | with a question budget below the contested threshold no turn of any conversation is contested, holds a critique or a probe, or is escalated |
| QueryAlignment.RunStaysAligned | genql/api/query_nodes.py:127-144 | from critique to execution candidates and validated statements correspond one to one, and so does the selected pair, over every run |
| QueryAlignment.CritiqueNeverPicksFatal | genql/api/query_ambiguity_nodes.py:114-128 | a winner by critique among contested survivors has no fatal report |
| QueryAlignment.SelectionFailsExactly | genql/api/query_ambiguity_nodes.py:114-128 | a reachable selection raises an IndexError if and only if every probe says one place that does not exist, and else takes the pair at the selected place |
| QueryAlignment.FatalIsSelectedExactly | genql/api/query_ambiguity_nodes.py:95-99 | a reachable selection takes a fatal candidate if and only if every probe says its place |
| QueryEndings.FatalIsSelected | genql/api/query_ambiguity_nodes.py:95-99 | a run from the start that selects a fatal candidate |
| QueryAlignment.ExecutedIsWithinBudget | genql/api/query_nodes.py:185-203 | over every run the statement executed is the one whose estimate was checked, within the budget and no dearer than the selected statement behind all rules |
| IngestionJobs.CarryForwardIsStaged | genql/services/datasource/onboarding_service.py:115-129 | a retried job is in pipeline order and keeps the shape unless it inherits a running step |
| IngestionJobs.RetryKeepsAllSteps | genql/services/datasource/onboarding_service.py:115-129 | behind a full job a retry lists all six steps, and a worker runs exactly those from the start on and the earlier unfinished ones |
| IngestionJobs.ProgressIsAFraction | genql/domain/entities/ingestion_job.py:98-121 | progress stays in [0, 1] and is 1 on a full job exactly when it won or everything is done |
| IngestionJobs.ProgressMoves | genql/domain/entities/ingestion_job.py:98-121 | progress starts at 0, each of the two reports of a step moves it on by a twelfth, and a step that raises gives its half back |
| IngestionChains.JobsAreFullUnlessHeadless | genql/services/datasource/onboarding_service.py:70-83 | every job of every execution lists the whole pipeline if and only if no request retried part-way from an empty history |
| IngestionQueue.AlwaysOneActive | migrations/versions/0012_ingestion_jobs.py:82-90 | no datasource ever has two queued or running jobs, with no hypothesis on time |
| IngestionQueue.RefusedExactly | migrations/versions/0012_ingestion_jobs.py:82-90 | a registration is refused only for a taken id or while a job of the same datasource has not ended |
| IngestionQueue.RetryReadsTheLatest | genql/services/datasource/onboarding_service.py:70-83 | a retry reads a job of its datasource that none is younger than, and none if and only if there is no job |
| IngestionReports.ReportSetsOne | genql/services/datasource/ingestion_service.py:90-109 | a worker's report sets one step of one job and nothing else: running as it begins, failed as it raises, skipped or succeeded as it ends, and only the overlay can be skipped |
| IngestionReports.StatusesWereReported | genql/services/datasource/ingestion_service.py:90-109 | over every execution, with no hypothesis on time, a step stands as succeeded, skipped, failed or running only if a worker at that step of a job of the same datasource reported just that |
| IngestionReports.OnlyTheOverlayIsSkipped | genql/services/datasource/ingestion_service.py:165-173 | over every execution no other step ever stands as skipped |
| IngestionProtocol.EventKeeps | genql/infrastructure/ingestion/worker.py:83-136 | every step of a worker, a crash, a retry, and a sweep that finds live runs prompt, keeps the protocol's invariant |
| IngestionProtocol.WorkersAreExclusive | genql/repositories/semantic/ingestion_job_repository.py:57-89 | if each sweep so far found live runs younger than the limit, no job has two live workers, and each owns an active row under its own claim |
| IngestionProtocol.OwnedExactlyWhenPrompt | genql/repositories/semantic/ingestion_job_repository.py:83-89 | over any prefix of any execution workers own their jobs throughout if and only if each sweep finds the live runs prompt |
| IngestionProtocol.WonMeansDoneUnlessTainted | genql/infrastructure/ingestion/worker.py:99-117 | a job that succeeded has every step done if and only if it was never queued with a running step, if each sweep so far found live runs prompt |
| IngestionProtocol.StepsKeepTheirShape | genql/services/datasource/ingestion_service.py:92-109 | untainted steps read done, then at most one running or failed, then pending, over any chain of retries and crashes, if each sweep so far found live runs prompt |
| IngestionProtocol.TerminalIsAbsorbing | genql/repositories/semantic/ingestion_job_repository.py:171-185 | a finished job's row is never changed again, if each sweep so far found live runs prompt |
| IngestionProtocol.ErrorStepIsAccurate | genql/infrastructure/ingestion/worker.py:119-136 | the step recorded for a failure is the one that raised, or a step failed earlier if none did, if each sweep so far found live runs prompt |
| IngestionHazards.SlowRunIsShared | genql/repositories/semantic/ingestion_job_repository.py:83-89 | a run longer than the limit does put two workers on one job |
| IngestionHazards.StaleWorkerOverwrites | genql/repositories/semantic/ingestion_job_repository.py:77-89 | without prompt sweeps a finished job is changed: released from a slow worker and re-run to success, it is then marked failed by that worker |
| IngestionHazards.CrashInsideStepIsNeverRedone | genql/infrastructure/ingestion/worker.py:102 | a job succeeds with a step still running after a crash, although every sweep finds live runs prompt |
| IngestionHazards.RetryRaceInheritsRunningStep | genql/services/datasource/onboarding_service.py:81-111 | a retry that read the latest job early queues a job with a running step, without any crash |
| IngestionEvents.FingerprintIsFaithful | genql/api/sse/ingestion_events.py:44-47 | two reads have one fingerprint string if and only if status and every step's name, status and count agree |
| IngestionEvents.WatchJob | genql/api/sse/ingestion_events.py:130-160 | the polling loop emits the stream the lemmas are about, for every sequence of reads |
| IngestionEvents.EndsOnce | genql/api/sse/ingestion_events.py:15-16 | exactly one terminal event, at the end, if and only if the last read does not raise: done if it finds the job won, error if lost, a timeout if no read found either; it carries that read; else none |
| IngestionEvents.ClientIsUpToDate | genql/api/sse/ingestion_events.py:130-160 | a client that folds the events holds the steps and the progress of the last read that found the job |
| IngestionEvents.Feed.Transitions | genql/api/sse/ingestion_events.py:99-127 | one poll moves the baseline to the statuses polled and announces nothing unless seeded |
| IngestionEvents.Feed.Poll | genql/api/sse/ingestion_events.py:163-180 | one turn of the endless loop |
| IngestionEvents.FeedIsExact | genql/api/sse/ingestion_events.py:99-127 | a job is announced at a poll as ready if and only if it won, as failed if and only if it lost, and in either case only if the poll is not the first and the datasource's status differs from the one last polled |
| IngestionEvents.QuickRetryIsSilent | genql/api/sse/ingestion_events.py:15-16 | a retry that succeeds between two polls behind a success is never announced |
| IngestionStore.JobStore.Submit | genql/repositories/semantic/ingestion_job_repository.py:112-123 | a row is added exactly when the unique index admits it, and nothing else changes |
| IngestionStore.JobStore.ClaimNext | genql/repositories/semantic/ingestion_job_repository.py:143-146 | an oldest queued job is claimed if there is one, and nothing else changes |
| IngestionStore.JobStore.RecordStep | genql/repositories/semantic/ingestion_job_repository.py:148-169 | one job's step is replaced or added, or the job is unknown |
| IngestionStore.JobStore.FinishJob | genql/repositories/semantic/ingestion_job_repository.py:171-185 | one job ends, with the first failed step if it lost, or is unknown |
| IngestionStore.JobStore.Release | genql/repositories/semantic/ingestion_job_repository.py:187-192 | exactly the running jobs claimed before the limit are queued again, unclaimed and otherwise unchanged, and their number is returned |
| IngestionStore.JobStore.RunSteps | genql/services/datasource/ingestion_service.py:71-109 | the loop of reports leaves the steps that `RunTellsEachStep` determines |
| IngestionStore.JobStore.RunOnce | genql/infrastructure/ingestion/worker.py:83-117 | one pass claims an oldest job, leaves its steps as `RunTellsEachStep` determines, and the job won or lost as `UndisturbedRun` does |
| IngestionStore.UndisturbedRun | genql/services/datasource/ingestion_service.py:71-109 | an undisturbed run wins exactly when no step raises, then all is done; else the first failed step is the one that raised and the shape is kept |
| IngestionStore.RunTellsEachStep | genql/services/datasource/ingestion_service.py:90-109 | step by step: an undisturbed run leaves finished steps and those behind the one that raised as they were; of the others one is failed if and only if it raised, skipped if and only if it is the overlay and there is none, and succeeded if and only if it did its work |
| ResultComparator.AcceptsEqualMeaning | genql/services/eval/result_comparator.py:50-71 | if the reference repeats no column and no row is longer or shorter than its columns, results match exactly when they are the same bag of assignments of keys to column names |
| ResultComparator.AcceptsExactlyWhenMatched | genql/services/eval/result_comparator.py:63-67 | results match exactly when the columns are the same names, the rows can be paired one to one under the key, and no row is too short to be read; repeated columns and ragged rows included |
| ResultComparator.KeysTellValues | genql/services/eval/result_comparator.py:33-47 | two cells have one key if and only if they are numbers that round alike, a truth value and its number, or equal; nothing equals a missing value |
| ResultComparator.RefusalIsExact | genql/services/eval/result_comparator.py:53-71 | the columns named missing and unexpected are those, the row counts are those, and reading raises if and only if a generated row ends before the first place of a column |
| ResultComparator.ComparisonIsAnEquivalence | genql/services/eval/result_comparator.py:1-17 | matching is reflexive, symmetric and transitive on rectangular results without repeated columns |
| ResultComparator.ReflexiveExactlyWhenDistinct | genql/services/eval/result_comparator.py:53-67 | a column list matches itself on every list of rows of its width if and only if no name repeats up to case |
| ResultComparator.OrderNeverMatters | genql/services/eval/result_comparator.py:1-8 | on rectangular results without repeated columns no reordering of rows or columns of either side changes the answer |

## Left out

- PostgreSQL's own lexer: all formatter results are relative to the tokenizer of the repository, which reads `+--` as one operator and splits `$1`.
- Text is a sequence of characters that stand for code units; case mapping is that of ASCII, which is all the keyword sets contain.
- The `catch` of the formatter: nothing in the modelled code throws.
- HTTP status, authorisation, aborting and decoding around the event reader; the last event ID and the reconnection time, which the reader does not keep.
- Every model, retriever, planner, guardrail, probe, decomposer and estimator is an arbitrary answer or function; the validation service and the rewrite rules are syntax-tree calls of a library. Validation raises nothing but its own error, and the estimator nothing but its own.
- Scores and costs are real numbers, without NaN or infinities; the ratio in the narrowing suggestion's text is not computed. Blanks around the gate's replies are taken as stripped already.
- The date type test of `has_time_dimension` is a flag of each link.
- The checkpoint is the saved state with the node that paused; the thread id, the trace parent, locks, timing and the recorder of execution actuals are not part of this model; nor are the owner, the identifiers, the times and the stage trail of history records. A resume of a thread that does not wait is refused before the graph and so has no run.
- RecordTurn: the turns of one thread are recorded one at a time, although the lock is released before; a write that raises has written nothing.
- Stage event texts and facts, and the JSON of the event payloads.
- JobStore.ClaimNext: one caller at a time. In the protocol a claim takes any queued job, which covers rows skipped because another transaction holds them.
- JobStore.RecordStep: the read and the write are one atomic step, here and in the protocol, and so are the re-read and the write that end a failed run. Database errors inside a report, and the deletion of datasources, are not modelled.
- Step details and durations, schemas and user ids of ingestion jobs; step counts outside the event streams.
- NaN in compared results, and numbers too large for a float; rounding and lower-casing are arbitrary functions.
- ReflexiveExactlyWhenDistinct: assumes that rounding tells 0 from 2.
