# Verified model of the Maurice kernel

Maurice is an agent runtime: a loop streams text and tool calls from an untrusted language model, a
permission system, a shell analyser and human approvals decide what may be executed, and a gateway lets
many peers talk to many sessions at once. This project models the protocols of that kernel in Dafny and
proves what they keep for every provider stream, every user, every interleaving and every clock.

`dafny verify dfyconfig.toml` checks everything.

## How it is laid out

Every component has pure functions that state what one call or step does. Where the program updates
objects or runs a loop, a class or method in the program's own form is proved equal to those functions;
the theorems are then about the functions, single steps, and whole runs.

| Component | Files |
| --- | --- |
| Tool gate | `Scopes`, `Permissions`, `Approvals`, `ToolGate`, `GateRuns`, `ProfileDecisions`, `FileDecisions` |
| Shell analyser | `ShellParser`, `ShellRisk`, `ShellTokens` |
| Turns and transcript | `Transcript`, `Sessions`, `Turns`, `TurnScript`, `History`, `Compaction`, `VisibleHistory`, `AgentTurn`, `LongHistory` |
| Gateway concurrency | `RateLimiter`, `TurnRegistry`, `Admission`, `Gateway` |
| Skills | `Skills`, `SkillRegistry` |
| Background jobs | `Scheduler`, `SchedulerRuns` |
| Providers | `FallbackProvider`, `ToolNames` |
| Socket framing | `Framing`, `SocketApproval` |

The clock, the provider's stream, the classifier's verdict, the approval callback's answer, the
summarising model and the job handlers are arbitrary inputs. Fresh identifiers are modelled as positions
(approvals, jobs, turns of the registry) or as a hypothesis (correlation ids, timestamps). Fingerprints are
the tuples they digest, so the digest is taken to be injective.

## What the proofs found

The code is modelled as it is. Where it differs from what its documentation or comments say, or where a
natural property fails, a lemma shows the failure and, where there is one, the exact condition.

- Denial is not final: `resolve` looks neither at the present status nor at the expiry
  (`DeniedCanBeApproved`). It does hold until somebody approves again (`RefusalStopsReplay`).
- A single-call approval is not tied to agent or session; it opens the same call anywhere until it expires,
  any number of times (`RememberedUntilExpiry`, `ExactApprovalCrossesSessions`). `docs/security.md` says that
  an elevated command needs a new approval even if one is cached; the code accepts the saved exact one.
- Narrowing a request keeps a session grant except when a number turns into a list of numbers
  (`NarrowingKeepsCoverage`).
- Every `secret.read` is denied in every profile, although the rule says "ask", because the rule's scope
  lists no credential (`SecretReadIsAlwaysDenied`).
- A stronger file profile can decide lower, exactly for paths its own exclusions or sensitive patterns name
  (`StrongerFileRuleIsLowerExactlyWhen`; `StrongerProfileCanDeny` is such a request).
- One sanitizing pass is not always enough (`OnePassSufficesExactlyWhen`, `OnePassCanFallShort`). Call ids that
  repeat, such as those made up for calls found in text, do no harm by themselves; the provider's view is
  paired exactly when each call left hanging has an id that no answer bears
  (`ProviderViewIsPairedExactlyWhen`, with compactions in `LongHistory`; `RepeatedIdsBreakPairing` is a session of
  two turns where it is not).
- Inside the loop compaction sees no correlation ids, so trimming drops no turn and summarising keeps none
  (`LevelsInsideTheLoop`, `NothingIsDroppedBelow`); keeping zero turns drops none either (`TrimmingToZeroDropsNothing`).
- The comment in the loop says that deduplication by timestamp prevents duplicates in the visible history.
  Messages that survive a compaction get new timestamps: some are shown twice exactly when the compaction
  trims a session that holds any (`SurvivorsShowTwice`). And of two messages with one timestamp the second is
  lost (`LostExactlyWhen`, `LostOnlyToASharedTimestamp`).
- A refusal for concurrency has already used up a slot of the minute (`RefusalForConcurrencyTakesASlot`). The
  concurrency limit can be overrun (`ConcurrencyLimitCanBeOverrun`): whatever
  the limits, it holds on all runs with at most k requests of a peer admitted and not yet counted exactly when k is
  at most one (`LimitHoldsExactlyWhen`).
- The dependency pass can keep a skill whose dependency it drops later; it keeps only the greatest closed set
  exactly when every loaded skill outside that set loses its providers first (`OnePassKeepsExactlyWhen`,
  `OnePassIsNotEnough`). For skills that share no names that is exactly when a load leaves every loaded skill with its
  dependencies (`LoadIsClosedExactlyWhen`); a name collision can take a dependency away afterwards
  (`LoadedMayLackDependency`, `LoadedHaveDependenciesExactlyWhen`).
- Cancelling a job from a handler of the same batch sticks only if that handler comes later in the batch
  (`CancelInBatchSticksExactlyWhen`, `CancelInBatchCanBeOverwritten`); a recurring job that fails once never runs again
  (`NotScheduledStaysSo`).
- A tool whose safe name is empty cannot be called (`NameRoundTrip`), and a root pattern over a root ending in
  `/` covers nothing below it (`RootPatternMatches`).

## Model

| member | source | states |
|---|---|---|
| ToolGate.ExecutedIffAuthorised | maurice/kernel/loop.py:381-527 | A call reaches its executor exactly when it is authorised at that moment: known tool with an executor, shell command let through, and allowed, or asked and then a non-blocking classifier, a replayed approval, or a yes from the callback. |
| ToolGate.EvaluatedIffLetThrough | maurice/kernel/loop.py:418-527 | The same past the permission check, for any evaluation that does not deny. |
| ToolGate.AskedIffLetThrough | maurice/kernel/loop.py:436-512 | The ask flow lets a call through exactly on a replayed approval or, without one, on a yes from the callback. |
| ToolGate.CallIsQuestionThenAnswer | maurice/kernel/loop.py:436-512 | A call that has to wait for the callback is its question followed by what the answer leads to on the store of that later moment; no other call depends on an answer. |
| ToolGate.NoIsNo | maurice/kernel/loop.py:64-75 | False, a dictionary that does not approve and any word but the seven refuse a waiting call: nothing is executed, stored or recorded. |
| ToolGate.YesIsYes | maurice/kernel/loop.py:457-481 | True, a dictionary that approves and the seven words let a waiting call through; a rememberable yes is kept for 1800 seconds of the session exactly when it says "session", else for 600 seconds of exactly this call. |
| ToolGate.ShellPassesIffAuthorised | maurice/kernel/loop.py:573-640 | The shell check passes a command exactly when it is safe, or elevated and an approval for it replays; never when critical. |
| ToolGate.AllowedShellHasCommand | maurice/kernel/loop.py:661-730 | A shell call not denied carries a text command, and the scope that was evaluated is the scope an approval of it has. |
| ToolGate.ExecutedFileCallsStayInside | maurice/kernel/loop.py:661-678 | A file that the arguments of an executed call name, by `paths`, `path`, or source and target, lies in the profile's roots and in none of its exclusions, and is not sensitive if nobody was asked. |
| ToolGate.HiddenPathIsNotEvaluated | maurice/kernel/loop.py:661-678 | A path argument behind one that takes precedence has no influence on the evaluation. |
| ToolGate.ExecutedShellStaysInside | maurice/kernel/loop.py:381-527 | An executed shell command runs in the workspace or project, within the profile's time limit, and never under the safe profile. |
| ToolGate.AgentLoop.HandleToolCall | maurice/kernel/loop.py:381-527 | The method's outcome and new store are those of the gate function the theorems are about, for every store, verdict and answer. |
| ToolGate.AgentLoop.HandleEvaluated | maurice/kernel/loop.py:418-527 | The same for the part after the permission check. |
| ToolGate.AgentLoop.AskForApproval | maurice/kernel/loop.py:436-512 | Replay, callback with remembering, or a stored request: outcome and store as specified. |
| ToolGate.AgentLoop.CheckShellCommand | maurice/kernel/loop.py:573-640 | Refuses exactly when the specification blocks, with its outcome and store; leaves the store alone when it passes. |
| ToolGate.LastPending | maurice/host/gateway.py:608-615 | The request a reply refers to is the last pending one of that agent and session, and there is none only if no request of theirs is pending. |
| ToolGate.ResolvePendingApproval | maurice/host/gateway.py:590-646 | A reply denies or approves exactly the last pending request, and "session" also adds a grant if that request is rememberable. |
| ToolGate.ReplySettlesOne | maurice/host/gateway.py:606-636 | A reply settles the last pending request of its agent and session and touches no other: denied by a refusal, approved by an acceptance; a grant is added exactly for "session" on a rememberable request. |
| ToolGate.ReplyNeedsARequest | maurice/host/gateway.py:606-614 | Without a pending request of that agent and session a reply does nothing. |
| ToolGate.ReplyDecides | maurice/host/gateway.py:590-646 | From a stored request to the next call: a refusal or other text opens nothing, "ok" opens exactly the same call until 1800 seconds after the request, and "session" also the covered calls of tool, class, agent and session until 1800 seconds after the reply, if the request is rememberable. |
| ToolGate.ShellCallRefusedExactly | maurice/kernel/loop.py:573-640 | Each refusal of a shell call means one thing: outside the profile, critical, or elevated without an approval that replays; only the last changes the store, by one pending request for exactly this call. |
| ToolGate.OtherCallRefusedExactly | maurice/kernel/loop.py:381-527 | Each refusal of any other call means one thing: outside the profile, blocked by the classifier, no approval and no callback, a callback that raises, a callback that says no; unless the callback says yes, only a missing approval changes the store, by one pending request for exactly this call. |
| GateRuns.EveryRunKeepsInv | maurice/kernel/loop.py:381-640 | Over all runs from an empty store of tool calls, answers of the callback to calls that wait, replies, resolutions and ticks, in any order and for any number of loops: every executed call is justified, every approval in force goes back to a human act not taken back since (its own approval, a session grant, or a yes from the callback for exactly that call or for the session), statuses follow the last resolution, shell approvals are single-call, and only what a profile lets be kept is marked rememberable. |
| GateRuns.EveryExecutionWasAuthorised | maurice/kernel/loop.py:381-527 | Every executed call of every run was authorised on the store and at the time of its decision, for the recorded reason; an approval it rests on replayed then, and an answer it rests on says yes by its form. |
| GateRuns.StepLogsAuthorisedCalls | maurice/kernel/loop.py:381-527 | A step from a state that keeps the invariant logs a call exactly when it is a tool call authorised on the present store without the callback, or the answer yes to a waiting call that has an executor. |
| GateRuns.CriticalNeverExecutes | maurice/kernel/loop.py:601-606 | In every run no executed shell command is critical, whatever profile, store and classifier hold. |
| GateRuns.ElevatedNeedsExactHumanApproval | maurice/kernel/loop.py:573-640 | In every run an executed elevated command had an unexpired approval with the fingerprint of exactly its command, directory, timeout and arguments in force, and the last a human had done about it was to approve it. |
| GateRuns.RefusalStopsReplay | maurice/kernel/approvals.py:126-148 | In every run, once an approval has been refused, whatever its status was, it is out of force and no call executed later rests on it, as long as nobody approves it again. |
| GateRuns.RefusalTakesEffect | maurice/kernel/approvals.py:126-148 | A refusal takes the approval out of force at once. |
| GateRuns.RestsOnApproved | maurice/kernel/approvals.py:251-296 | What an executed call rests on is in force at that moment. |
| GateRuns.ApprovalsComeFromHumans | maurice/kernel/approvals.py:126-242 | In every run an approval in force is accounted for by a human act that fits it, and it was not refused since; one for a session, in force or not, goes back to a yes for the session or to a granted and approved request; and no shell approval is for a session. |
| GateRuns.OnlyRememberableAnswersAreKept | maurice/kernel/loop.py:459-481 | In every run whatever is granted for a session, and whatever is in force without having been resolved, is for a class and scope that some profile evaluates as rememberable; so it is never a shell command, a secret, an agent or a runtime change. |
| GateRuns.StepKeepsInv | maurice/kernel/loop.py:381-640 | Any single event keeps the run invariant, those between a question and its answer included. |
| GateRuns.GateStoreStep | maurice/kernel/loop.py:381-527 | A tool call appends at most one envelope and changes no status, and the envelope is pending or backed by the callback's yes of the same kind. |
| GateRuns.ReplyStoreStep | maurice/host/gateway.py:590-646 | A reply changes one status and appends at most one grant, which the approved request backs. |
| GateRuns.RecordIsJustified | maurice/kernel/loop.py:381-527 | The record of an executed call is justified by the state the call was decided in. |
| GateRuns.ShellGateJustifies | maurice/kernel/loop.py:573-640 | A passed elevated command rests on an approval in force because a human approved that request; callback yes and session grants cannot stand in. |
| GateRuns.ExactApprovalCrossesSessions | maurice/kernel/approvals.py:276-296 | A single-call approval that replays for one agent and session replays for every other. |
| Approvals.FirstReplay | maurice/kernel/approvals.py:251-296 | Finds an approval exactly when the store holds an approved, unexpired envelope that matches or covers the call. |
| Approvals.ApprovedRequestIsForOneCall | maurice/kernel/approvals.py:79-148 | A request opens nothing until it is approved, and then exactly the identical call, rememberable or not, until 1800 seconds after it was made. |
| Approvals.LaterEntriesRevokeNothing | maurice/kernel/approvals.py:251-296 | Appending requests or remembered answers changes no successful replay. |
| Approvals.RememberedUntilExpiry | maurice/kernel/approvals.py:150-173 | A remembered answer opens exactly the identical call, in every agent and session, for 600 seconds. |
| Approvals.SessionGrantIsBound | maurice/kernel/approvals.py:175-198 | A session grant opens exactly the covered calls of its tool, class, agent and session, for 1800 seconds. |
| Approvals.NarrowedRequestKeepsSessionGrant | maurice/kernel/approvals.py:280-290 | Narrowing a request with kinds kept never loses a session grant. |
| Approvals.DeniedCanBeApproved | maurice/kernel/approvals.py:126-142 | Denying first makes no difference to approving later. |
| Approvals.ApprovalStore.RequestApproval | maurice/kernel/approvals.py:79-124 | Appends one pending envelope with the fields of the call and thirty minutes to live, and returns it. |
| Approvals.ApprovalStore.ResolveApproval | maurice/kernel/approvals.py:126-142 | Sets the status of exactly the named envelope; "pending" and unknown ids are errors that change nothing. |
| Approvals.ApprovalStore.RememberExact | maurice/kernel/approvals.py:150-173 | Appends one approved single-call envelope. |
| Approvals.ApprovalStore.RememberToolForSession | maurice/kernel/approvals.py:175-198 | Appends one approved session grant. |
| Approvals.ApprovalStore.ApprovedForReplay | maurice/kernel/approvals.py:251-296 | The early-continue loop returns the first envelope that stands for the call. |
| Scopes.ScopeCovers | maurice/kernel/approvals.py:327-345 | The early-return loop over keys decides coverage, in whatever order keys come. |
| Scopes.CoverageOfValues | maurice/kernel/approvals.py:327-345 | A number covers exactly the smaller ones, a list covers the lists of its members, `*` covers every list, a single value the lists of it, and otherwise only equal values cover. |
| Scopes.NarrowingKeepsCoverage | maurice/kernel/approvals.py:327-345 | A narrower scope is covered by everything that covered the wider one exactly when no number becomes a non-empty list. |
| Scopes.ValueCoversTransitive | maurice/kernel/approvals.py:327-345 | Coverage of single values is transitive except through a number into a list. |
| Scopes.CoversReflexive | maurice/kernel/approvals.py:327-345 | Every scope covers itself. |
| Permissions.StrongerProfileNeverLower | maurice/kernel/permissions.py:530-585 | For the eight classes other than files a stronger profile never decides lower, for every scope and context. |
| Permissions.StrongerFileRuleIsLowerExactlyWhen | maurice/kernel/permissions.py:530-585 | For files it decides lower exactly when the weaker does not deny and a path is excluded by the stronger, or sensitive to it while the weaker allows. |
| Permissions.StrongerProfileCanDeny | maurice/kernel/permissions.py:82-495 | In every context whose workspace and runtime directory are both `/w`: a write there that the safe profile asks about and the limited one denies. |
| Permissions.ReplaceAllAtFront | maurice/kernel/permissions.py:711-719 | Expanding a pattern that begins with a variable and holds no other puts its value in front and leaves the rest. |
| Permissions.AllowedOutrightExactly | maurice/kernel/permissions.py:530-601 | Class by class, exactly what each profile lets run without a question. |
| Permissions.FileRulesAreNested | maurice/kernel/permissions.py:82-495 | The file roots grow with the profile and the file decision does not fall. |
| Permissions.ShellIsNeverAsked | maurice/kernel/permissions.py:530-585 | A shell evaluation is allow or deny, never ask, and never rememberable. |
| Permissions.RememberableClasses | maurice/kernel/permissions.py:530-585 | An answer may be kept exactly when the user is asked about anything but a runtime change; so never for a shell command, a secret, an agent or a runtime change. |
| Permissions.SecretReadIsAlwaysDenied | maurice/kernel/permissions.py:604-631 | No profile, scope or context lets a secret be read. |
| Permissions.RootPatternMatches | maurice/kernel/permissions.py:735-737 | A pattern over a literal root matches exactly the root and what lies below it, with the exception of roots ending in a slash stated. |
| Permissions.LiteralPrefix | maurice/kernel/permissions.py:735-737 | A literal prefix of a pattern must be matched as it is, and the rest matches the rest. |
| ProfileDecisions.NetworkDecision | maurice/kernel/loop.py:661-730 | The host is that of `host`, else of `url`, else of `base_url`; it is asked for below the power profile, and the request is for that host. |
| ProfileDecisions.IntegrationDecision | maurice/kernel/permissions.py:82-495 | Below the power profile only the calendar: asked for, except that the limited profile reads it freely. |
| ProfileDecisions.ActionDecision | maurice/kernel/permissions.py:82-511 | Which host actions each profile denies, asks about and allows, action by action. |
| ProfileDecisions.SpawnDecision | maurice/kernel/permissions.py:604-722 | No agents under the safe profile; `dev_worker`, at most 5 and 1 deep, under the limited one; any, at most 6 and 3 deep, under the power profile. |
| ProfileDecisions.RuntimeDecision | maurice/kernel/permissions.py:530-722 | Only proposals, and only about the kernel, the host, a system skill, the packaged defaults or the installer; asked for under the safe profile, allowed under the others. |
| ProfileDecisions.ShellDecision | maurice/kernel/permissions.py:604-722 | No commands under the safe profile; else any command, in the workspace or project, for at most 300 or 900 seconds. |
| FileDecisions.FileDecided | maurice/kernel/permissions.py:82-495 | A file is denied unless it resolves into workspace or project (or, for power reads, the home directory) and is not kept out: secrets, the runtime directory above the safe profile, and for power reads the keys and the Maurice home; it is asked for if it is an environment file or a write under the safe profile; else allowed. |
| FileDecisions.EnvPatterns | maurice/kernel/permissions.py:82-495 | The four sensitive patterns of a directory match exactly the paths below it with a last component `.env` or a component that begins with `.env.`. |
| FileDecisions.WorstPathDecides | maurice/kernel/permissions.py:604-672 | A request for several files is decided as the one of them that is decided lowest. |
| FileDecisions.SourceAndTarget | maurice/kernel/loop.py:661-678 | A call with a source and a target is evaluated for both. |
| FileDecisions.PathArgument | maurice/kernel/loop.py:661-678 | A call with a path is evaluated for that path. |
| ShellParser.SplitSimpleAndChain | maurice/kernel/shell_parser.py:186-226 | The index loop returns the trimmed segments between separators outside quotes and escapes, or nothing if there is one segment or a blank one. |
| ShellParser.RejoinGivesCommand | maurice/kernel/shell_parser.py:186-226 | The untrimmed segments joined by the separator are the command. |
| ShellParser.CutsAreOutsideQuotes | maurice/kernel/shell_parser.py:186-226 | Every segment but the last ends outside quotes and escapes and not on a lone ampersand, and no segment splits again. |
| ShellParser.SplittingIsHomomorphic | maurice/kernel/shell_parser.py:186-226 | The segments of A followed by those of B are those of the joined command exactly when the scan of A ends clean. |
| ShellParser.SplitOfConcatenation | maurice/kernel/shell_parser.py:186-226 | For operands none of which is blank, splitting a joined command is splitting its two sides. |
| ShellParser.OperandsAreFlat | maurice/kernel/shell_parser.py:186-226 | A trimmed operand is trimmed for good and does not split again. |
| ShellParser.SegmentsAreShorter | maurice/kernel/shell_parser.py:186-226 | Segments of a real chain are shorter than the command, by the separator at least. |
| ShellParser.SpacesExactly | maurice/kernel/shell_parser.py:186-226 | The characters trimmed are the twenty-nine that Python counts as white space. |
| ShellTokens.CutsExactlyAtAnds | maurice/kernel/shell_parser.py:186-226 | A command read as plain and escaped characters, quoted texts and ampersands is cut exactly at the double ampersands among them, whatever the quotes and escapes hold and even if the last quote is not closed. |
| ShellTokens.EveryCommandIsRead | maurice/kernel/shell_parser.py:186-226 | Every command can be read so. |
| ShellTokens.QuotedAndIsNoChain | maurice/kernel/shell_parser.py:135-158 | A command all of whose double ampersands are quoted or escaped is one operand, and is judged by the tables. |
| ShellTokens.QuotedTextStays | maurice/kernel/shell_parser.py:207-210 | After a text that ends clean a text between two quotes of one kind is never cut. |
| ShellTokens.EscapedCharacterStays | maurice/kernel/shell_parser.py:196-203 | Nor is a character after a backslash. |
| ShellTokens.PlainTextEndsClean | maurice/kernel/shell_parser.py:186-226 | A text without quotes, backslashes and ampersands ends clean. |
| ShellRisk.Parse | maurice/kernel/shell_parser.py:135-158 | The recursive analyser terminates and computes the assessment. |
| ShellRisk.ParseAndChain | maurice/kernel/shell_parser.py:161-183 | The loop keeping the worst verdict returns the first critical one, else the first risky one, else safe. |
| ShellRisk.PartsAreShorter | maurice/kernel/shell_parser.py:135-183 | Every operand handed to the recursion is shorter than the command. |
| ShellRisk.ChainRiskIsMaximum | maurice/kernel/shell_parser.py:161-183 | A chain not critical as a whole is exactly as risky as its riskiest operand, and safe exactly when all operands are. |
| ShellRisk.OperandVerdict | maurice/kernel/shell_parser.py:135-158 | An operand is judged by the tables alone. |
| ShellRisk.SafeMeansEveryOperandClean | maurice/kernel/shell_parser.py:114-158 | Given the two ampersand rows of the complexity table, a command is safe exactly when no critical row matches it and every operand is non-blank and matches no row: a chain with a blank operand never passes. |
| ShellRisk.BlankOperandIsCaught | maurice/kernel/shell_parser.py:114-133 | An unsplittable chain with a blank operand shows one of the two ampersand patterns. |
| ShellRisk.CriticalExactly | maurice/kernel/shell_parser.py:135-183 | If the critical rows see a match that is set off by blanks or ampersands inside a longer text, a command is critical exactly when the whole of it matches one; splitting hides and invents none. |
| Transcript.SanitizeMessages | maurice/kernel/loop.py:78-102 | The loop with its growing set of kept calls computes the sanitized history. |
| Transcript.SanitizedAnswersArePreceded | maurice/kernel/loop.py:78-102 | The result is a subsequence in which every id-bearing answer has an earlier call. |
| Transcript.SanitizeFixesExactlyClean | maurice/kernel/loop.py:78-102 | A history is left alone exactly when every answer has an earlier call and every call an answer. |
| Transcript.TwoPassesSuffice | maurice/kernel/loop.py:78-102 | Two passes reach a clean fixed point on every history. |
| Transcript.OnePassSufficesExactlyWhen | maurice/kernel/loop.py:78-102 | One pass does exactly when every id with both a call and an answer has an answer after a call. |
| Transcript.OnePassCanFallShort | maurice/kernel/loop.py:78-102 | An answer before its call takes two passes. |
| Sessions.StartedTurnRunsAlone | maurice/kernel/session.py:123-160 | Starting a turn in any store leaves exactly it running, with every record before it unchanged but for those that were running, which have failed; ending it leaves none running, and changes only its record. |
| Sessions.LastRecord | maurice/kernel/session.py:145-160 | The record completed is the last one of that turn. |
| Sessions.SessionStore.AppendMessage | maurice/kernel/session.py:102-121 | Appends one message and touches nothing else. |
| Sessions.SessionStore.BeginTurn | maurice/kernel/session.py:123-143 | Fails whatever was running and appends a running record. |
| Sessions.SessionStore.EndTurn | maurice/kernel/session.py:145-160 | Sets the status of the last record of the turn; an unknown turn is an error that changes nothing. |
| Sessions.SessionStore.RemoveTurnMessages | maurice/kernel/loop.py:849-856 | Removes exactly the messages of the turn, keeping the order of the others. |
| Sessions.SessionStore.Reset | maurice/kernel/session.py:162-171 | Empties messages, visible history and turn records. |
| AgentTurn.RunTurn | maurice/kernel/loop.py:150-379 | One turn as a whole, with or without compaction at its start, against any provider, user and tools: transcript, visible history, turn records, provider calls and events are as specified; exactly one terminal event; an internal turn leaves the transcript it found after compaction. |
| Turns.TurnRun.Run | maurice/kernel/loop.py:178-379 | The turn from the recording of the user's message on. |
| Turns.TurnRun.DoRounds | maurice/kernel/loop.py:197-312 | The outer loop reaches the specified outcome. |
| Turns.TurnRun.DoRound | maurice/kernel/loop.py:198-312 | One round, with its cancellation points, exceptions and early exits, does what the step function says. |
| Turns.TurnRun.StreamRound | maurice/kernel/loop.py:203-265 | The provider part of a round: the stream, its failure, and what was streamed, as specified. |
| Turns.TurnRun.HandleTextCalls | maurice/kernel/loop.py:266-297 | The part of a round about tool calls found in the text, as specified. |
| Turns.TurnRun.ConsumeStream | maurice/kernel/loop.py:206-261 | The chunk loop, with break and exceptions, is the fold over the chunks. |
| Turns.TurnRun.ConsumeTextCalls | maurice/kernel/loop.py:266-297 | The loop over tool calls found in the text is the fold over them. |
| Turns.TurnRun.Finish | maurice/kernel/loop.py:313-354 | Closes the turn record, reports one terminal event, and takes an internal turn's messages back. |
| Turns.MaxToolIterations | maurice/kernel/loop.py:983-987 | The limit used is between 1 and 100 for every input. |
| Turns.EveryTurnIsWellFormed | maurice/kernel/loop.py:150-379 | For every stream, tools, cancellation and limit the turn appends the user's message, calls each followed by its answer under the same id, and at most one assistant message; a turn that raises leaves at most one call hanging at the end; the provider is called at most clamp(limit, 1, 100) times. |
| TurnScript.StreamRecords | maurice/kernel/loop.py:206-261 | A stream, whatever is in it, records each call and its answer under its id up to the first event that interrupts it; its text is the deltas up to there; and it cancels, raises, fails or succeeds as that event and the statuses say. |
| TurnScript.RoundRecords | maurice/kernel/loop.py:198-312 | A round, whatever is streamed in it, records these exchanges, then those of the calls in its text or, if it is not taken as calls, the text as one assistant message; the turn goes on exactly if the round succeeded, called some tool, waits for no approval and said nothing. |
| TurnScript.TurnRecords | maurice/kernel/loop.py:150-379 | A whole turn records the user's message and what its rounds record, up to the first that does not go on or to the limit (10 unless set, kept between 1 and 100); that round decides the status of the record and the terminal event; an internal turn leaves nothing. |
| Turns.RoundsKeepShape | maurice/kernel/loop.py:197-312 | After any number of rounds the transcript has that shape. |
| Turns.RoundsCallProvider | maurice/kernel/loop.py:197-212 | n rounds call the provider at most n times. |
| History.AtMostTheLastTurnRuns | maurice/kernel/session.py:123-160 | Over any sequence of turns, killed ones included, at most the last record is running. |
| History.StoredIsBroken | maurice/kernel/loop.py:150-379 | Over any sequence of turns, killed or raising, the stored history consists of other messages, exchanges and calls without answer. |
| History.ProviderViewIsPairedExactlyWhen | maurice/kernel/loop.py:823-833 | Over every sequence of turns, whatever their ids and ends, the provider sees every call immediately followed by its answer exactly when each call left hanging has an id that no answer of the session bears; then it sees everything but those calls. |
| History.PairedExactlyFrom | maurice/kernel/loop.py:78-102 | The same for the filter in the middle of a history. |
| History.AnsweredCallsArePaired | maurice/kernel/loop.py:823-833 | With no call left hanging the view is paired however often ids repeat. |
| History.ProviderViewIsPaired | maurice/kernel/loop.py:823-833 | With call ids that never repeat it is paired too. |
| History.RepeatedIdsBreakPairing | maurice/kernel/loop.py:150-379 | A session of two turns, for every id: the first raises in the middle of the call and the second gets an answer under the same id; the provider then sees the call left hanging. ProviderViewIsPairedExactlyWhen says when that happens. |
| LongHistory.StoredAfterIsBroken | maurice/kernel/loop.py:767-811 | Over any sequence of turns, any of which compact at their start, the stored history consists of other messages, exchanges and calls without answer. |
| LongHistory.ProviderViewIsPairedExactlyWhen | maurice/kernel/loop.py:767-833 | Over every sequence of turns, any of which compact at their start, the provider sees every call immediately followed by its answer exactly when each call left hanging in what is stored has an id that no answer there bears; then it sees everything but those calls. |
| Compaction.GroupByTurn | maurice/kernel/compaction.py:102-119 | The accumulating loop computes the maximal runs of equal correlation id. |
| Compaction.MoreTokensNeverLowerLevel | maurice/kernel/compaction.py:46-54 | With thresholds in order the level is monotone in the token count, for any window. |
| Compaction.LevelExactly | maurice/kernel/compaction.py:46-80 | With thresholds in order and a window of at least one token, the level applied is that of the highest threshold times window that the tokens reach, with trimming in place of the higher ones when there is no provider. |
| Compaction.EstimateIsAQuarter | maurice/kernel/compaction.py:39-43 | The estimate is a quarter of the characters, short of it by less than one for each text. |
| Compaction.GroupsAreRuns | maurice/kernel/compaction.py:102-119 | The groups concatenate to the input, each is of one turn, and neighbours differ. |
| Compaction.GroupingIsUnique | maurice/kernel/compaction.py:102-119 | No other decomposition has these properties. |
| Compaction.CompactMessages | maurice/kernel/compaction.py:57-99 | Computes the level from the token count and the compaction of that level. |
| Compaction.OnlyWholeOldTurnsGo | maurice/kernel/compaction.py:57-131 | At every level the surviving messages other than system ones are those of the last turns, whole and in order; how many turns stay is fixed by level and configuration. |
| Compaction.TrimmingToZeroDropsNothing | maurice/kernel/compaction.py:122-131 | Keeping zero turns keeps all of them. |
| Compaction.CompactionKeepsClean | maurice/kernel/compaction.py:57-131 | The compacted history is accepted unchanged by the sanitizer exactly when the surviving turns are, and it is if the history was and no id crosses a turn boundary. |
| Compaction.LevelsInsideTheLoop | maurice/kernel/loop.py:768-782 | Without correlation ids trimming keeps every message and summarising keeps none. |
| VisibleHistory.CompactIfNeeded | maurice/kernel/loop.py:767-811 | The method leaves exactly the specified messages and visible history. |
| VisibleHistory.NothingIsDroppedBelow | maurice/kernel/loop.py:767-800 | Below the summarising threshold, and without a provider, a compaction of a session drops no user, assistant, call or answer message of the provider's view; from there on it drops all of them. |
| VisibleHistory.OneSummaryAtMost | maurice/kernel/loop.py:767-800 | A compaction keeps the standing system messages, drops earlier summaries, and adds one exactly when it does not trim. |
| VisibleHistory.CompactionOnlyExtends | maurice/kernel/loop.py:785-791 | The visible history is only extended, and covers the timestamp of every visible message compacted. |
| VisibleHistory.PreserveCovers | maurice/kernel/loop.py:785-791 | The preserve loop adds only visible messages of the session and covers every timestamp among them. |
| VisibleHistory.ShownAfterCompaction | maurice/host/commands/gateway_server.py:523-532 | What is shown right after a compaction is the preserved history, the notice, and the survivors with new timestamps. |
| VisibleHistory.SurvivorsShowTwice | maurice/kernel/loop.py:785-800 | After a compaction a user or assistant message is shown a second time exactly when the compaction trims, keeps no negative number of turns, and the session holds such a message. |
| VisibleHistory.OriginalIsPreserved | maurice/kernel/loop.py:785-800 | The original of every visible survivor is among the preserved messages. |
| VisibleHistory.PreserveVisible | maurice/kernel/loop.py:785-791 | The preserve loop computes the specified visible history. |
| VisibleHistory.PreservedExactlyWhen | maurice/kernel/loop.py:785-791 | A message is preserved exactly when it was there already, or its timestamp was not and it is the first visible message bearing it. |
| VisibleHistory.LostExactlyWhen | maurice/kernel/loop.py:785-811 | A compaction loses a visible message exactly when it is not in the visible history and another one kept there bears its timestamp. |
| VisibleHistory.LostOnlyToASharedTimestamp | maurice/kernel/loop.py:785-811 | In every run, whatever the clock, a message no longer shown lost its turn or shares its timestamp with another message. |
| VisibleHistory.VisibleHistoryIsLossless | maurice/kernel/loop.py:785-811 | So over every run in which no timestamp is used twice, every user or assistant message ever appended is still shown, unless its own turn was taken back. |
| RateLimiter.WindowDecidesLikeFullHistory | maurice/host/gateway.py:531-550 | Over every run under an advancing clock the deque decides like a count over the whole history. |
| RateLimiter.CheckAgrees | maurice/host/gateway.py:531-550 | One request: same verdict, and the deque stays the recent end of the history. |
| RateLimiter.NoMinuteHoldsMore | maurice/host/gateway.py:531-550 | In no closed minute of any run do more requests of one peer than the maximum get the verdict "admitted". |
| RateLimiter.VerdictsExactly | maurice/host/gateway.py:531-550 | On every request of every run the verdict is "too many" exactly when the maximum of this peer's earlier requests of the last 60 seconds have taken a slot, else "too many at once" exactly when the maximum of turns is running; a maximum that is not positive never refuses. |
| RateLimiter.RefusalForConcurrencyTakesASlot | maurice/host/gateway.py:546-549 | A request refused for concurrency is in the window. |
| Gateway.MessageRouter.RateLimitCheck | maurice/host/gateway.py:531-550 | The popleft loop gives the verdict of the full history, kept as ghost state, and the specified deque. |
| Gateway.MessageRouter.CheckWindow | maurice/host/gateway.py:531-550 | The critical section computes verdict and deque as specified. |
| Gateway.MessageRouter.BeginRegister | maurice/host/gateway.py:495-506 | Registers a fresh, unset event under the key, with its deadline. |
| Gateway.MessageRouter.BeginCount | maurice/host/gateway.py:507-510 | Adds one to the peer's counter. |
| Gateway.MessageRouter.FinishUnregister | maurice/host/gateway.py:512-522 | Removes the key only if it still maps to the turn's own event. |
| Gateway.MessageRouter.FinishUncount | maurice/host/gateway.py:523-529 | Takes one from the peer's counter and drops it at zero. |
| Gateway.MessageRouter.Cancel | maurice/host/gateway.py:177-184 | Sets the event registered under the key and no other. |
| Gateway.MessageRouter.Sweep | maurice/host/gateway.py:552-575 | Sets the events of exactly the overdue turns. |
| Gateway.OverdueExactly | maurice/host/gateway.py:495-506 | A turn is overdue exactly when it has a timeout and has run for longer. |
| Gateway.MauriceServer.RegisterTurn | maurice/host/server.py:617-621 | Registers a fresh, unset event under the key. |
| Gateway.MauriceServer.UnregisterTurn | maurice/host/server.py:623-626 | Removes the key only if it still maps to the turn's own event. |
| Gateway.MauriceServer.CancelTurn | maurice/host/server.py:628-635 | Sets the event registered under the key and no other. |
| TurnRegistry.EveryInterleavingKeepsInv | maurice/host/gateway.py:495-529 | Under every interleaving of the steps of all turns, cancellations and sweeps: a key is active exactly when its most recently begun turn is unfinished, and maps to that turn's event; each counter is begun minus finished, absent at zero. |
| TurnRegistry.ReachableInv | maurice/host/gateway.py:495-529 | The same from the initial state. |
| TurnRegistry.PhaseChange | maurice/host/gateway.py:507-529 | One step of one turn changes the live count of its own peer only. |
| TurnRegistry.LookupPicksRunningTurn | maurice/host/gateway.py:177-184 | A cancellation picks exactly the most recently begun turn of the key if it is still running. |
| TurnRegistry.SweepPicksOverdueTurns | maurice/host/gateway.py:552-575 | A sweep picks exactly the turns that are the last begun of their key, still running, and past their own deadline. |
| TurnRegistry.SignalFindsTurnRunningUnlessItFinished | maurice/host/gateway.py:177-184 | When the event is set outside the lock, the turn picked, counted or not yet, is still running exactly when its own unregistering has not come between. |
| TurnRegistry.StaleSignalsMissLaterTurns | maurice/host/gateway.py:177-184 | Setting events looked up earlier never hits a turn begun after the look-up. |
| TurnRegistry.ConcurrencyLimitCanBeOverrun | maurice/host/gateway.py:507-549 | With a limit of one, two requests can both be admitted and both be counted; Admission.LimitHoldsExactlyWhen says when not. |
| Admission.CounterStaysBelow | maurice/host/gateway.py:186-214 | Under every interleaving of requests, turns, cancellations and sweeps in which at most k requests of a peer are admitted and not yet counted at once, its counter is at most the maximum plus k - 1. |
| Admission.BoundIsReached | maurice/host/gateway.py:507-549 | For every positive concurrency maximum, every limit per minute and every positive k, some such run under a clock that never goes back reaches that bound. |
| Admission.LimitHoldsExactlyWhen | maurice/host/gateway.py:507-549 | For every positive concurrency maximum and every limit per minute, the concurrency limit holds on all such runs exactly when k is at most one. |
| Admission.StepAddsOnlyBelowMaximum | maurice/host/gateway.py:546-549 | Only an admission adds to the requests counted or in between, and it finds the counter below the maximum. |
| Skills.PassKeepsClosedSets | maurice/kernel/skills.py:392-415 | The pass never disables a member of a dependency-closed set of loaded skills. |
| Skills.OnePassKeepsExactlyWhen | maurice/kernel/skills.py:224-225 | One pass keeps every skill of the greatest closed set of loaded skills, and only those exactly when each loaded skill outside it has a dependency whose loaded providers are all earlier ones outside it. |
| Skills.NothingDroppedTooLate | maurice/kernel/skills.py:224-225 | That is the case exactly when no kept skill depends on a later one that is dropped. |
| Skills.OrderedPassIsGreatest | maurice/kernel/skills.py:224-225 | With dependencies before dependents the pass keeps exactly the greatest closed set, and raises exactly when a required loaded skill is outside it. |
| Skills.OnePassIsNotEnough | maurice/kernel/skills.py:224-225 | In the other order a skill is kept whose dependency is dropped. |
| SkillRegistry.SkillLoader.ResolveDependencies | maurice/kernel/skills.py:224-225 | The loop over all skills, ending early when a required one fails, computes the pass. |
| SkillRegistry.SkillLoader.AddTools | maurice/kernel/skills.py:235-251 | Either all tools are added or, on a collision, the map is exactly what it was. |
| SkillRegistry.SkillLoader.AddNames | maurice/kernel/skills.py:273-275 | Name and aliases of one command are all added. |
| SkillRegistry.SkillLoader.AddCommands | maurice/kernel/skills.py:252-275 | Either all names of all commands are added or, on a collision, the map is exactly what it was. |
| SkillRegistry.SkillLoader.RegisterSkill | maurice/kernel/skills.py:229-276 | A colliding skill is disabled with both maps restored, an accepted one adds its tools and commands; raises for a required one. |
| SkillRegistry.SkillLoader.Load | maurice/kernel/skills.py:224-278 | Resolution and registration as specified, or an error. |
| SkillRegistry.ToolsRolledBack | maurice/kernel/skills.py:242-243 | Taking away the names just added gives the map back, if none was there before. |
| SkillRegistry.CommandsRolledBack | maurice/kernel/skills.py:262-265 | The same for command names. |
| SkillRegistry.MapsHoldTheLoaded | maurice/kernel/skills.py:227-276 | At the end a name is in a map exactly when a skill still loaded owns it, and maps to a declaration of such a skill under that name. |
| SkillRegistry.LoadedAreFound | maurice/kernel/skills.py:227-276 | After a load every tool of a skill still loaded is found under its name, and every command under its name and each of its aliases. |
| SkillRegistry.CollidesExactlyWhen | maurice/kernel/skills.py:235-272 | What the loops call a collision is a name shared with an earlier loaded skill or repeated within the skill. |
| SkillRegistry.FirstRegistrantWins | maurice/kernel/skills.py:227-276 | A skill stays loaded exactly when it shares no name with an earlier skill that stays loaded and repeats none of its own. |
| SkillRegistry.RaisesForRequiredClash | maurice/kernel/skills.py:235-272 | Loading raises exactly for a required skill that clashes. |
| SkillRegistry.NoneClashAfterPass | maurice/kernel/skills.py:227-276 | Loaded skills that share no names pass registration as the dependency pass left them. |
| SkillRegistry.LoadedHaveDependenciesExactlyWhen | maurice/kernel/skills.py:224-276 | After every load that does not raise, each skill left loaded has all its dependencies loaded exactly when none of them depends on a skill dropped too late by the pass or on one that clashes with an earlier skill that stays loaded. |
| SkillRegistry.LoadIsClosedExactlyWhen | maurice/kernel/skills.py:224-276 | For loaded skills that share no names, if the pass does not raise, registration does not raise either, and each skill left loaded has all its dependencies loaded exactly when every loaded skill outside the greatest closed set loses its providers before the pass comes to it. |
| SkillRegistry.OrderedLoadIsClosed | maurice/kernel/skills.py:224-276 | With dependencies before dependents, distinct skill names and no shared names of tools and commands, it has. |
| SkillRegistry.LoadedMayLackDependency | maurice/kernel/skills.py:224-276 | A skill that stays loaded although its dependency was disabled by a collision. |
| Scheduler.JobStore.ScheduleJob | maurice/kernel/scheduler.py:61-82 | Appends one scheduled job and returns it. |
| Scheduler.JobStore.DueJobs | maurice/kernel/scheduler.py:91-97 | Returns the due jobs in store order. |
| Scheduler.JobStore.Update | maurice/kernel/scheduler.py:131-148 | Changes status and error of exactly the named job; an unknown id changes nothing. |
| Scheduler.JobStore.CompleteJob | maurice/kernel/scheduler.py:102-118 | Completes a one-shot job, reschedules a recurring one an interval after completion. |
| Scheduler.JobRunner.RunJob | maurice/kernel/scheduler.py:202-213 | Runs one job of a batch whatever its handler does to the store; every store operation finds the job. |
| Scheduler.JobRunner.RunDueJobs | maurice/kernel/scheduler.py:197-214 | The loop over the snapshot does what the batch function says, with one result for each job of the batch. |
| Scheduler.DueAreStored | maurice/kernel/scheduler.py:91-97 | The snapshot holds jobs of the store, due, each once and in order. |
| Scheduler.DueIsThere | maurice/kernel/scheduler.py:91-97 | A job is in the snapshot exactly when it is scheduled, for now or earlier. |
| SchedulerRuns.ExecutionsAreSpaced | maurice/kernel/scheduler.py:91-214 | Over every run of batches, schedulings and cancellations, with handlers that do the same, two calls of a job are an interval apart from end to start, a one-shot job is called at most once, and no job is lost, moved or renamed. |
| SchedulerRuns.CallsSpanIntervals | maurice/kernel/scheduler.py:102-118 | n calls of a recurring job span at least n - 1 intervals. |
| SchedulerRuns.NotScheduledStaysSo | maurice/kernel/scheduler.py:99-129 | A job cancelled, failed or completed between batches is never called or scheduled again. |
| SchedulerRuns.BatchComesOut | maurice/kernel/scheduler.py:197-214 | After a batch each of its jobs has failed for want of a handler or with its handler's error, is scheduled an interval after it was done, or is completed; unless the handler of a later job cancelled it. |
| SchedulerRuns.LimitedIsPrefix | maurice/kernel/scheduler.py:197-200 | A limit takes that many jobs from the front, a negative one all but that many, and none takes all. |
| SchedulerRuns.CancelInBatchSticksExactlyWhen | maurice/kernel/scheduler.py:197-214 | After a batch a job of it is cancelled exactly when the handler of a later job of the batch cancelled it. |
| SchedulerRuns.CancelInBatchCanBeOverwritten | maurice/kernel/scheduler.py:197-214 | A batch of two in which the first handler cancels the second job in vain. |
| SchedulerRuns.UnlimitedBatchLeavesNothingDue | maurice/kernel/scheduler.py:197-214 | After a batch without limit no job is scheduled for its time or earlier, if handlers schedule nothing due. |
| FallbackProvider.StreamAttempts | maurice/kernel/providers.py:62-92 | The nested loops emit what the specification says, and raise when it does. |
| FallbackProvider.StreamOne | maurice/kernel/providers.py:72-92 | The inner loop abandons an attempt exactly when it fails before output and another is left, having emitted its statuses. |
| FallbackProvider.FirstFailure | maurice/kernel/providers.py:82-90 | Finds the failure that comes before any output, if there is one. |
| FallbackProvider.OneAttemptSpeaks | maurice/kernel/providers.py:62-92 | All output and every failure emitted come from the first attempt that does not fail before output, or the last, complete and in order; before it stand only harmless statuses. |
| FallbackProvider.FrontIsWhatCameBefore | maurice/kernel/providers.py:62-92 | What stands before the output of that attempt is what each earlier attempt streamed up to its failed chunk, in order. |
| FallbackProvider.SomeAttemptSpeaks | maurice/kernel/providers.py:62-92 | Unless there are no attempts there is such an attempt. |
| FallbackProvider.EarlyFailureMeansAllFailed | maurice/kernel/providers.py:62-92 | A failure before output reaches the loop exactly when every attempt failed before output. |
| ToolNames.FreshName | maurice/kernel/providers.py:772-777 | The suffix loop ends, by counting the used names, with the bare name or the first free suffix. |
| ToolNames.FirstFreeUnique | maurice/kernel/providers.py:772-777 | There is only one such name. |
| ToolNames.ToolNameMap | maurice/kernel/providers.py:767-779 | For every list of tools the map covers exactly its names, is injective, only adds suffixes, and equals the safe names exactly when these are distinct. |
| ToolNames.DeclaredNamesArePermitted | maurice/kernel/providers.py:767-782 | Declared names hold only permitted characters; a name of permitted characters is declared as it is where no suffix is needed; refused characters become underscores. |
| ToolNames.SuffixedInjective | maurice/kernel/providers.py:775-775 | Different suffixes give different names, none of them the bare one. |
| ToolNames.NameRoundTrip | maurice/kernel/providers.py:807-823 | A call for a declared tool under its safe name comes back under its own name exactly when the safe name is not empty. |
| Framing.Connection.Send | maurice/host/server.py:40-42 | Puts the message and one newline on the wire. |
| Framing.Connection.RecvLine | maurice/host/server.py:45-54 | The loop over a shared buffer reads as specified and conserves the stream. |
| Framing.Connection.AskApproval | maurice/host/server.py:245-262 | The callback asks and takes the next line of the shared buffer as the answer, with its scope or "exact"; a closed connection means no. |
| Framing.RecvIgnoresChunking | maurice/host/client.py:28-37 | A read depends on the bytes alone, not on how the socket cut them up. |
| Framing.EveryMessageArrivesOnceInOrder | maurice/host/server.py:40-54 | For any chunking, repeated reads return exactly the messages sent, in order, whoever reads. |
| Framing.NoByteIsLost | maurice/host/server.py:45-54 | Lines read, buffer and unread bytes always make up the original stream, closed or not. |
| Framing.OneReadConserves | maurice/host/server.py:45-54 | The same for one read. |
| SocketApproval.NextLineDecides | maurice/host/server.py:245-262 | However the stream is cut up, a waiting call goes through exactly when the peer's next line approves it; a refusing line or a closed connection leaves nothing behind. |
| SocketApproval.SessionWordDecides | maurice/host/server.py:257-260 | The yes is for the session exactly when `remember_scope`, or without one `scope`, says "session". |

## Left out

- Persistence: stores are in-memory values and each load, change and save is one step; no disk failure, no second process.
- HTTP, Telegram, streaming to browsers, OAuth, Docker, git, dashboards, command line, onboarding: input and output only.
- Pattern tables of the shell analyser: open predicates; the theorems that need a property of a table say which one.
- `Path.resolve`, symbolic links and home expansion: one function of the context; character classes in patterns are not modelled.
- Ill-typed scope values for which the original raises a TypeError: the model denies instead.
- The digest behind fingerprints, and the difference between integer, float and boolean arguments in it.
- The classifier, the summarising model, tool executors and job handlers themselves; executors are taken not to write to the session.
- ToolGate.ExecutedIffAuthorised: an exception of the tool-started callback, between authorisation and the executor, is not modelled.
- The word lists that turn a reply into accept, accept for the session, refuse: a reply comes classified.
- Events other than those that open and close a turn, and statistics such as token counts and tool activity.
- AgentTurn.RunTurn: one turn at a time writes to a session; two turns of one session writing at once are not modelled.
- The web view's further filtering of what is shown: internal messages, and runs of notices shown as one.
- Stream laziness: a generator that is not consumed to its end emits a prefix of what FallbackProvider says.
- Correlation ids placed inside message metadata, which grouping would prefer to the message's own.
- The lists of errors, suggested fixes and the emptied tool lists kept on a disabled skill, and discovery of skills on disk.
- SkillRegistry.SkillLoader.Load: command names are taken to be non-empty, which the manifest validation guarantees.
- Floating point: clock readings, thresholds and ratios are real numbers, without rounding.
- JSON encoding of messages: a message is any byte string without a newline, which the encoder guarantees.
- ShellRisk.CriticalExactly: assumes that the critical rows are not anchored and that a blank or an ampersand next to a match leaves its word boundaries alone; the patterns themselves stay open.
- ShellRisk.SafeMeansEveryOperandClean: assumes the two ampersand rows of the complexity table; the other patterns stay open.
- Scheduler polling, sleeping and the timestamps of job updates.
- Agent wizard, migrations, configuration merging, labels, prompts and text heuristics: long but shallow.
