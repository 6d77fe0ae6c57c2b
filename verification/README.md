# DriftGate, modelled

DriftGate investigates failed pipeline executions with a language model and acts on them only through deterministic
gates. This project models the parts that decide whether an action reaches the outside world, and proves what they
promise. The model, the target, the source of executions, the clock and the gate's facts may answer anything: they are
parameters, and every theorem is about all of their answers.

The parts, from the ground up:

- **Spending and rates** (`Limits`, `Spend`, `Gateway`): the reserve-then-wait token bucket; concurrent reservations
  against the spend ledger, as threads that interleave between every two accesses to shared state; the gateway's
  methods tied to that machine.
- **Diffs** (`Splice`, `Diffs`, `DiffScript`, `DiffLaws`, `DiffText`, `DiffParse`, `DiffPrint`, `DiffGit`, `DiffLimit`,
  `Tier3Check`, `Tier3Lines`, `Tier3Reports`, `Tier3Laws`): the strict applier as an exact splice, diffs written from edit
  scripts, the way back, the lenient parser with a printer as its partner, the one input it chokes on, and the check a
  proposed diff has to pass.
- **Approvals** (`Identity`, `Approvals`, `ApprovalSchema`, `ApprovalLaws`, `ApprovalStore`, `Audit`, `Trace`,
  `ApprovalFlow`, `FlowLaws`, `TraceLaws`, `ApprovalMachine`, `ApprovalSolo`): the rules written twice, in code and as
  schema, and what the schema guards by itself; the audited service; the log read back; any number of callers at once; and
  one caller alone, who is the service.
- **The gate** (`SlidingWindow`, `SafetyGate`): the pruned queue against the full history, and what a verdict means.
- **The case loop** (`Attempts`, `Budget`, `Agents`, `AgentLaws`, `CaseSteps`, `CaseTells`, `CaseLoop`, `CaseRun`): one
  failed execution from investigation to outcome, re-entered at most once through the hook that verifies what was done.
- **Log extraction** (`LogText`): from lines to ranked error blocks within a budget.

Code that changes state is a method over fields, arrays of rows or loop variables, proved equal to a function of the
old state; what the source promises is then proved about that function. `Wrappers` holds the two usual result types.

Amounts of money, tokens and time are real numbers. Unicode tables appear as functions about which three facts are
assumed (`Identity.Tables.Lawful`): printable ASCII is visible, is only lower-cased by folding, and folding leaves no
upper-case ASCII letter. `Identity.LawfulTables` shows the facts are consistent.

Where the code and its own words differ, the model follows the code, shows an input, and says exactly when they differ:

- `ApprovalStore.decide` reads the clock twice, so a vote checked in time can carry a time at or past the deadline
  (`ApprovalLaws.LateVote`), although the module says every decision is made before it. Over a run every decision is on
  time exactly when no operation that adds one reads the clock late the second time (`ApprovalLaws.DecisionsOnTime`).
- An approval can be recorded without the gate having been asked: exactly when the look before the gate finds the request
  overdue, or not there yet, and the store, looking again, records the vote (`FlowLaws.GateSkippedExactly`). That takes a
  clock that runs backwards between the two (`FlowLaws.BackwardsClockSkipsGate`) or another caller who opens the request
  in between (`FlowLaws.OpenedInBetween`).
- `check_diff`, which "never raises", does in two cases and no other (`Tier3Laws.CheckRaisesExactly`): when a hunk header
  has a start with more digits than the interpreter turns into a number and the lines up to the end of its hunk are a diff
  otherwise (`Tier3Laws.LongHeaderRaises`), and when it gets as far as comparing and a path is too long to read by then,
  for steady files only through one marked as new (`Tier3Laws.OnlyNewFilesRaise`).
- When the target raises after an execution was claimed, the request is executed while its log stays with the approval, or
  with an execution nobody verified, for good (`FlowLaws.CutAfterClaim`, `FlowLaws.UntoldStays`): among calls that run to
  their end and executions the target cuts short, nothing else does that (`FlowLaws.LogTellsTheTruth`).
- `apply_diff` never looks up the path of a new file, so its "already exists" error cannot arise in the Tier 3 check: a
  passing diff overwrites a file it calls new exactly when that path can be read (`Tier3Laws.OverwritesExactly`,
  `Tier3Laws.NewFileOverExisting`).
- A deletion that adds an empty line without a newline applies, and its reversal does not
  (`DiffLaws.DeletionThatAddsALine`, `DiffLaws.ReverseUndoesFile`).
- Attempts of one execution that the source puts on two fingerprints can share an id, and the second one's result is
  recorded on the first (`CaseLoop.SharedIdExactly`). That erases a failure, or misses one, under exact conditions
  (`CaseLoop.SharedIdErasesFailure`, `CaseLoop.SharedIdMissesFailure`), and a run of two cases then tries again what
  failed before (`CaseRun.FailureForgotten`).
- A run of spinner frames hides an error between them (`LogText.SpinnersHideAnError`): collapsing keeps an error of every
  log exactly when no line shows less than its repeats (`LogText.ErrorsSurviveExactly`), and of one log exactly when a run
  of at most two lines has one or a longer run begins or ends with one (`LogText.ErrorIsLeftExactly`).
- A rate-limit seed from the future makes a limiter that goes on being used count stale attempts
  (`SlidingWindow.TrustedExactly`). The one place that seeds looks once and throws the limiter away, and there nothing is
  miscounted (`SafetyGate.SeededGateCountsTheLog`).

## Model

| member | source | states |
|---|---|---|
| Limits.RateBound | src/driftgate/llm/limits.py:23-38 | In any run of acquires and refunds on a clock that does not go back, the amounts charged by acquires i to j are at most the capacity, plus the rate times the time between their grants, plus what was refunded in between |
| Limits.RateBoundIsTight | src/driftgate/llm/limits.py:23-34 | Two back-to-back acquires from a full bucket meet the bound exactly, so it cannot be lowered |
| Limits.WaitIsExact | src/driftgate/llm/limits.py:31-34 | Left alone, the bucket is back at zero at the announced grant and not before |
| Limits.RefundUndoesAcquire | src/driftgate/llm/limits.py:23-38 | What is given back at once leaves the bucket as if it had not been taken |
| Limits.RefundShortensWait | src/driftgate/llm/limits.py:36-38 | A refund raises the level by its amount up to the capacity, and shortens the next wait by exactly the time that amount takes to refill |
| Limits.LargeRequestDrains | src/driftgate/llm/limits.py:23-34 | A request larger than the bucket empties a full one and waits for nothing |
| Limits.TokenBucket.Take | src/driftgate/llm/limits.py:23-34 | One acquire moves the bucket as the run's step says and returns the wait for the deficit left |
| Limits.TokenBucket.GiveBack | src/driftgate/llm/limits.py:36-38 | One refund moves the bucket as the run's refund step says |
| Limits.RateLimiter.Acquire | src/driftgate/llm/limits.py:48-49 | Takes one request and then the tokens, and the waits add up |
| Limits.RateLimiter.RefundTokens | src/driftgate/llm/limits.py:51-53 | Only a positive amount is refunded, and only to the token bucket |
| Spend.LifetimeSpendBound | src/driftgate/llm/gateway.py:170-220 | In every interleaving of reserving, recording, failing and releasing, recorded spend plus reservations not yet recorded is at most the lifetime cap (or the ledger's own past) plus what calls cost beyond their reservations |
| Spend.DailySpendBound | src/driftgate/llm/gateway.py:201-216 | The same for every UTC day, also for calls reserved before midnight and recorded after it |
| Spend.ReservedIsLive | src/driftgate/llm/gateway.py:208-220 | The shared reserved amount is the sum of the live reservations and zero when no call is live |
| Spend.StepKeeps | src/driftgate/llm/ledger.py:31-64 | Every single step of every thread, a ledger insert or sum among them, keeps the caps' invariant |
| Gateway.SendWithRetries | src/driftgate/llm/gateway.py:222-241 | Retries are bounded, only retryable failures are retried, and the time slept is reported |
| Gateway.BackoffDoubles | src/driftgate/llm/gateway.py:236-236 | The wait starts at the base and doubles with every attempt, up to the cap |
| Gateway.DelayIsLonger | src/driftgate/llm/gateway.py:237-239 | Before its jitter it is the longer of the backoff and what the provider asked for |
| Gateway.ModelGateway.Reserve | src/driftgate/llm/gateway.py:201-216 | Refused exactly when spent, in flight and worst case together pass a cap; otherwise the worst case is reserved; it is a run of the machine |
| Gateway.ModelGateway.Finish | src/driftgate/llm/gateway.py:173-193 | The first answer that is not retried decides: a response comes back at its own cost and adds one ledger row for it, dated when it is recorded, any other failure or running out of retries fails the call; whatever happens the reservation is given back |
| Gateway.ModelGateway.CallApi | src/driftgate/llm/gateway.py:170-199 | Refused exactly when spent, in flight and worst case together pass a cap, with the amount used; otherwise the same as above, charging only a reply; nothing stays reserved, and it is a run of the machine |
| Gateway.ReservationNonNegative | src/driftgate/llm/config.py:74-88 | The worst case a call reserves is not negative |
| Gateway.ReservationCovers | src/driftgate/llm/config.py:74-88 | A call costs no more than it reserved when its prompt, with cached tokens counted plain and counted by their price, is within the estimate and its answer is no longer than asked for |
| Gateway.OneTier | src/driftgate/llm/config.py:74-88 | The whole prompt is priced at the dearer tier exactly when it is longer than the threshold |
| Gateway.ChargedByTheToken | src/driftgate/llm/config.py:74-88 | A million tokens of each kind cost their price, the cached kinds a share of the input's, and costs add up |
| Splice.ApplyIsSplice | src/driftgate/diffs.py:239-259 | A successful apply replaces ordered, non-overlapping slices equal to each hunk's old lines by its new lines, at the stated line or the only match, and keeps everything in between |
| Splice.SpliceIsExact | src/driftgate/diffs.py:239-259 | Those facts determine the result: two results that meet them are equal |
| Splice.RefusedForNoMatch | src/driftgate/diffs.py:243-250 | A hunk is refused as not matching only when its lines occur nowhere past the cursor (or an empty one lies before it) |
| Splice.RefusedForSeveral | src/driftgate/diffs.py:246-249 | A hunk is refused as ambiguous only when it really matches in two places |
| Splice.StatedLinesApply | src/driftgate/diffs.py:243-258 | Hunks numbered by where they match are applied there |
| Splice.FindPlace | src/driftgate/diffs.py:243-250 | The search for a hunk's place finds the stated line, else the only match, else says why not |
| Diffs.HunkLines | src/driftgate/diffs.py:208-226 | The loop over a hunk computes its old and new lines, which are those of the script it writes, "No newline" markers included |
| Diffs.ApplyHunks | src/driftgate/diffs.py:239-254 | The cursor loop computes the splice, and the same error for the same hunk |
| DiffScript.SidesAreTheScript | src/driftgate/diffs.py:208-226 | The hunk that lists any script of kept, removed and added texts by their prefixes has the kept and removed ones, each with its newline, as its old lines, and the kept and added ones as its new lines |
| DiffScript.WrittenDiffApplies | src/driftgate/diffs.py:239-259 | A diff of any number of such hunks between untouched stretches, numbered by where they stand, applies to the old lines and gives the new ones, markers for missing last newlines included |
| DiffScript.AnyTwoFiles | src/driftgate/diffs.py:208-259 | So for any two files of plain lines, with or without last newlines, there is a diff that applies to the first and gives the second |
| DiffLaws.SideCounts | src/driftgate/diffs.py:46-60 | A hunk's sides are as long as its prefixes say |
| DiffLaws.ApplyChangesLineCount | src/driftgate/diffs.py:93-96 | A successful apply changes the number of lines by exactly the file's net count |
| DiffLaws.FlipSwapsSides | src/driftgate/diffs.py:208-226 | Swapping + and - swaps the two sides, markers included |
| DiffLaws.ReverseUndoesLines | src/driftgate/diffs.py:208-259 | Whenever hunks apply, the swapped hunks, renumbered to where they landed, apply to the result and give the original lines back |
| DiffLaws.ReverseUndoesFile | src/driftgate/diffs.py:229-259 | The same for whole files, creation and deletion included, exactly when a deletion adds nothing |
| DiffLaws.DeletionThatAddsALine | src/driftgate/diffs.py:255-258 | The exception exists: a deletion that adds an empty line applies |
| DiffText.SplitJoin | src/driftgate/diffs.py:200-201 | Tidy lines survive being joined and split again |
| DiffText.JoinSplit | src/driftgate/diffs.py:200-201 | Splitting loses nothing and leaves no empty line |
| DiffText.NoMoreLines | src/driftgate/diffs.py:200-201 | Lines with no boundary inside are never read back as more lines than were written, and as many only when they are the same |
| DiffText.DeletionOnText | src/driftgate/diffs.py:255-258 | A deletion goes through exactly when the text left by its hunks is empty, and is refused exactly when it is not |
| DiffText.ReverseUndoesText | src/driftgate/diffs.py:229-259 | On texts the reversed diff gives the old text back exactly when the lines that were written read back as they are, and after a deletion exactly when it added nothing |
| DiffParse.ParseDiff | src/driftgate/diffs.py:152-197 | The nested index loops compute the parser, file by file and hunk by hunk, with the same errors, the one for a number too long to read among them |
| DiffParse.ReadBody | src/driftgate/diffs.py:175-186 | A hunk's body ends at the next header; a blank line is a blank context line; anything else is an error |
| DiffPrint.ParsePrint | src/driftgate/diffs.py:143-197 | Reading a printed diff gives it back exactly when no body line reads like a file header, none ends with a carriage return and every start is short enough to read; with only the first, it comes back without those carriage returns, or with the error for a long number |
| DiffPrint.Reparse | src/driftgate/diffs.py:152-197 | Printing whatever was parsed and parsing it again changes nothing, exactly when no body line ends with a carriage return |
| DiffPrint.ParsedIsPrintable | src/driftgate/diffs.py:143-197 | Every parsed file has a side and a hunk, clean paths, prefixed body lines, no line that reads like a file header, and starts short enough to read |
| DiffPrint.HeaderRoundTrip | src/driftgate/diffs.py:23-23 | A printed hunk header gives the digits of its two start lines back, and they stand for those lines |
| DiffPrint.PathRoundTrip | src/driftgate/diffs.py:143-149 | A printed path comes back without its prefix, and /dev/null as no path |
| DiffGit.HeaderPathExactly | src/driftgate/diffs.py:143-149 | A file header names what stands between the blanks around it and the first tab, without a/ or b/, and /dev/null names nothing |
| DiffGit.OtherLinesAreRefused | src/driftgate/diffs.py:191-194 | Where a file may begin, one of the eight kinds of header lines or a blank line is passed over, and any other line is refused |
| DiffGit.BodyLineExactly | src/driftgate/diffs.py:175-186 | Within a hunk a header ends the body, an empty line is an empty context line, and a line without a prefix is refused |
| DiffGit.GitDiffIsRead | src/driftgate/diffs.py:143-197 | A diff with such lines put before its files, and timestamps behind its file names, is read as the diff alone |
| DiffLimit.TooLongExactly | src/driftgate/diffs.py:152-197 | The interpreter's error about a long number leaves the parser exactly when some header has one and the lines up to the end of its hunk, with a plain header in its place, are a diff |
| DiffLimit.LongDiffIsTooLong | src/driftgate/diffs.py:187-187 | A diff with one header and more digits than the interpreter takes does that |
| Tier3Check.CheckDiff | src/driftgate/tier3.py:224-311 | The loops that append violations compute the check: rule by rule, in order, reading no file once a path is off limits |
| Tier3Check.ApplyDiff | src/driftgate/diffs.py:262-269 | Every file is applied in order, and a path named twice is refused |
| Tier3Laws.CheckPassesExactly | src/driftgate/tier3.py:224-311 | A text passes exactly when it is a diff whose files all stay where they are and are kept, are safe, unprotected, declared and allowed, are few, add and remove few lines at all their places, add no secret at any of them, shrink last, are named once, apply to the whole file that was read (or to nothing, for a new one), and change what is there |
| Tier3Lines.AddedLinesExactly | src/driftgate/tier3.py:277-277 | The texts searched for secrets are those of every + line of every hunk of every file, in order |
| Tier3Lines.ChangedLinesExactly | src/driftgate/tier3.py:273-275 | The size of the diff is the number of its places with a + or a - line |
| Tier3Lines.SearchedExactly | src/driftgate/tier3.py:277-279 | A text is searched exactly when some line of some hunk of some file is a + followed by it |
| Tier3Reports.ReportedExactly | src/driftgate/tier3.py:246-290 | Each report made before a file is read is there exactly when it is true of the diff, kind by kind |
| Tier3Laws.ReportsExactly | src/driftgate/tier3.py:246-311 | And so is every other report of the check: that it does not apply, or that a path already holds the content |
| Tier3Reports.OffLimitsExactly | src/driftgate/tier3.py:251-291 | Files are left unread exactly when the diff moves a file or names an unsafe or protected path |
| Tier3Laws.PassedContents | src/driftgate/tier3.py:281-311 | What passes hands on, in order, each file with its hunks spliced into what was read, line counts changed by the diff's own, every shrinking file after every other |
| Tier3Laws.NothingReadOffLimits | src/driftgate/tier3.py:251-291 | A rename or a dangerous path gives one verdict whatever the files hold |
| Tier3Laws.CheckRaisesExactly | src/driftgate/tier3.py:241-311 | The check lets an error through exactly when a header too long to read is reached, or when no path is off limits, every file applies once, and a path of the diff is too long to read when it is compared |
| Tier3Laws.LongHeaderRaises | src/driftgate/tier3.py:241-245 | Such a header gets through the check whatever the policy and the files |
| Tier3Laws.OnlyNewFilesRaise | src/driftgate/tier3.py:293-311 | Of a diff that was read, when files read the same both times, exactly when a path too long to read is marked as new |
| Tier3Laws.OverwritesExactly | src/driftgate/diffs.py:229-269 | What a passing check writes for a file marked as new replaces a different text exactly when the path can be read |
| Tier3Laws.NewFileOverExisting | src/driftgate/diffs.py:231-234 | A one-line new file passes over whatever its path holds, unless that is the same text, and raises when it is too long |
| Identity.NormalizeIsIdempotent | src/driftgate/approvals.py:114-130 | A normalised identity meets the schema's CHECK and is its own normal form |
| Identity.CheckIsNormalForm | src/driftgate/approvals.py:165-182 | The schema's CHECK admits exactly the normal forms |
| ApprovalStore.InsertIsAccepted | src/driftgate/approvals.py:187-191 | A new request's row is refused by the schema exactly when an open request for its execution and action exists |
| ApprovalStore.VoteIsAccepted | src/driftgate/approvals.py:197-213 | A vote's row and the status that follows from it pass every CHECK, trigger and index |
| ApprovalStore.ClaimIsAccepted | src/driftgate/approvals.py:192-204 | Claiming an approved request passes the triggers |
| ApprovalStore.ClosingIsAccepted | src/driftgate/approvals.py:192-196 | Expiring or cancelling an open request is always accepted |
| ApprovalStore.NoteIsAccepted | src/driftgate/approvals.py:474-476 | Writing a note is always accepted |
| ApprovalSchema.SchemaGuards | src/driftgate/approvals.py:158-218 | Whatever statements are sent to an empty database, an approved or executed request has its tier's approvals, each by another person, none by the requester, and no denial, and there are never two open requests for one execution and action |
| ApprovalSchema.AcceptedKeeps | src/driftgate/approvals.py:158-218 | Every statement the schema accepts keeps that, changes no request but its status and note, and moves a status only forward |
| ApprovalSchema.OpensExactly | src/driftgate/approvals.py:351-387 | A request is opened exactly for Tier 1 and 2, by somebody who can be named, when none is open for the same execution and action: pending, with its tier's quorum and deadline |
| ApprovalSchema.NotesAreCut | src/driftgate/approvals.py:465-476 | Notes are kept up to 500 characters |
| ApprovalLaws.QuorumIsCount | src/driftgate/approvals.py:200-204 | The code's number of distinct approvers equals the schema's count |
| ApprovalLaws.CountsAgree | src/driftgate/approvals.py:334-348 | The approvers are as many as the rows the schema counts, nobody twice, the requester never |
| ApprovalStore.ApprovalStore.Execute | src/driftgate/approvals.py:158-218 | One statement: done when the schema accepts it, without effect otherwise |
| ApprovalStore.ApprovalStore.GetApprovers | src/driftgate/approvals.py:334-348 | The loop over decisions gives the distinct approvers in order |
| ApprovalStore.ApprovalStore.Open | src/driftgate/approvals.py:351-387 | Opens a pending request with its tier's window and quorum, or says why not |
| ApprovalStore.ApprovalStore.Expire | src/driftgate/approvals.py:389-399 | Marks exactly the overdue open requests, every update accepted, and returns them in order |
| ApprovalStore.ApprovalStore.Vote | src/driftgate/approvals.py:407-439 | Records a vote or refuses it for the first reason that applies; no statement it sends is refused |
| ApprovalStore.ApprovalStore.ClaimForExecution | src/driftgate/approvals.py:447-463 | Approved to executed, in time and with quorum, or expired, or refused |
| ApprovalStore.ApprovalStore.Close | src/driftgate/approvals.py:465-472 | Cancels an open request with a note of at most 500 characters |
| ApprovalStore.ApprovalStore.Annotate | src/driftgate/approvals.py:474-476 | Changes nothing but the note |
| ApprovalLaws.StepKeeps | src/driftgate/approvals.py:351-476 | Every operation keeps the store's invariant: statuses are what the decisions make them |
| ApprovalLaws.ApprovalsBehindExecution | src/driftgate/approvals.py:407-463 | In every reachable store an approved or executed request has exactly its tier's quorum of distinct approvers other than the requester, and no denial |
| ApprovalLaws.HistoryOnlyGrows | src/driftgate/approvals.py:192-217 | Statuses only move forward, terminal ones never change, identities are frozen and decisions are only added |
| ApprovalLaws.OnlyClaimsExecute | src/driftgate/approvals.py:447-463 | A request becomes executed only by a claim before its deadline |
| ApprovalLaws.DecisionsAreTimely | src/driftgate/approvals.py:415-436 | A decision appears only by a vote checked before the deadline on a pending request, and carries the second clock reading |
| ApprovalLaws.DecisionsOnTime | src/driftgate/approvals.py:401-436 | Over any run, every decision is before its deadline exactly when no operation that adds one reads the clock at or past it the second time |
| ApprovalLaws.LateVote | src/driftgate/approvals.py:402-429 | Wherever a vote could be recorded, one checked in time and recorded at the deadline is not on time |
| ApprovalLaws.OneOpenRequest | src/driftgate/approvals.py:187-188 | Never two open requests for one execution and action |
| Audit.AuditLog.Write | src/driftgate/audit.py:46-56 | Appends one numbered entry and changes none |
| Audit.AuditLog.Read | src/driftgate/audit.py:58-66 | Gives the entries of one kind in order |
| Trace.DeriveOutcome | src/driftgate/report/trace.py:262-311 | The loop over entries computes the reading of the log: the last terminal event wins, a cancellation only for the current request |
| Trace.SilentNotes | src/driftgate/report/trace.py:184-259 | Refused, repeated and unknown entries never change the outcome |
| TraceLaws.ActionIsRead | src/driftgate/report/trace.py:284-307 | After a run or a pull request and any silent entries, the outcome is that action until the next entry: merged or closed, its checks failed, failed, or handed over, told apart for runs and pull requests |
| TraceLaws.RunIsRead | src/driftgate/report/trace.py:278-305 | Of an execution of an approved request the log tells a refusal by the gate from a failed dry run, and a run that failed from one that was verified or was not |
| ApprovalFlow.ApprovalService.Vote | src/driftgate/approval_flow.py:98-167 | Gate first when the vote could be recorded, then the store, then the audit lines, refusals and expiry included |
| ApprovalFlow.ApprovalService.ExpireCheck | src/driftgate/approval_flow.py:174-179 | Expires every overdue request and audits each once |
| ApprovalFlow.ApprovalService.Execute | src/driftgate/approval_flow.py:225-272 | Expiry, status, quorum, gate, then the run: every branch's store change, audit lines and answer |
| ApprovalFlow.ApprovalService.Run | src/driftgate/approval_flow.py:340-409 | Dry run, claim, execute, verify, with what each leaves behind |
| FlowLaws.LogTellsTheTruth | src/driftgate/report/trace.py:262-311 | From the moment a request is opened, whatever calls follow on it or on others, the outcome read from its execution's entries tells its stored status exactly when no execution of it was cut short after its claim; if one was, the request is executed and the log says approved, or executed without a verdict |
| FlowLaws.CallKeepsTold | src/driftgate/approval_flow.py:117-207 | Every call that is not such a cut, whichever request it is about, keeps that agreement |
| FlowLaws.CutLeavesUntold | src/driftgate/approval_flow.py:360-401 | An execution cut short after its claim leaves the log behind the status |
| FlowLaws.CutAfterClaim | src/driftgate/approval_flow.py:360-372 | It can happen to any execution that would otherwise go through |
| FlowLaws.UntoldStays | src/driftgate/approval_flow.py:117-272 | No later call puts that right |
| FlowLaws.TellsOne | src/driftgate/report/trace.py:66-82 | An outcome tells one status only, so the agreement holds in both directions |
| FlowLaws.GateSkippedExactly | src/driftgate/approval_flow.py:98-121 | Whatever other callers did between the two looks, an approval of a tier the gate does not allow is recorded exactly when the first look finds no such request or finds it overdue, and the store, looking again, records the vote |
| FlowLaws.ApprovalNeedsGate | src/driftgate/approval_flow.py:98-121 | So on a clock that does not run backwards an approval of a request that was there at the first look is recorded only after the gate allowed its tier |
| FlowLaws.BackwardsClockSkipsGate | src/driftgate/approval_flow.py:106-112 | And on one that does, any approval the store would record can be recorded without the gate |
| FlowLaws.OpenedInBetween | src/driftgate/approval_flow.py:98-121 | And with the clock standing still: a request opened between the two looks is approved without the gate |
| ApprovalMachine.AtMostOnce | src/driftgate/approval_flow.py:360-370 | Under every interleaving the target is entered at most once per request, runs and open claims together being one exactly when the request is executed |
| ApprovalMachine.EveryRunIsAuthorised | src/driftgate/approval_flow.py:259-272 | Every run was made by a caller whose own gate run allowed the request's tier, after a dry run logged as ok, and who had claimed it before the deadline, with quorum and no denial |
| ApprovalMachine.ExpiryIsAuditedOnce | src/driftgate/approval_flow.py:149-192 | At most one expired entry, none unless the request is expired, and exactly one when nobody has an entry left to write |
| ApprovalMachine.MoveBalances | src/driftgate/approval_flow.py:225-429 | Every single step keeps entries written and owed in step with expired requests, and runs made and claimed in step with executed ones |
| ApprovalMachine.HappenKeeps | src/driftgate/approval_flow.py:225-429 | Every arrival and step of any caller keeps the whole world's invariant |
| ApprovalMachine.AfterIsRehearsed | src/driftgate/approval_flow.py:340-370 | In every reachable world each run on the target and each claim about to run has a dry run logged as ok for its request |
| ApprovalSolo.OpenSolo | src/driftgate/approvals.py:351-387 | A caller alone who opens a request leaves what the store's operation leaves, and the service's line |
| ApprovalSolo.ExpireSolo | src/driftgate/approval_flow.py:174-192 | Alone, the sweep leaves exactly the store and the log lines of the service's expiry |
| ApprovalSolo.DecideSolo | src/driftgate/approval_flow.py:98-167 | Alone, a vote leaves exactly the store, log lines and answer of the service's call |
| ApprovalSolo.ExecuteSolo | src/driftgate/approval_flow.py:225-429 | Alone, an execution leaves exactly the store and log lines of the service's call, enters the target exactly when that executes, and records whose gate run cleared it |
| ApprovalSolo.SoloIsARun | src/driftgate/approval_flow.py:225-429 | What a caller does alone is a run of the machine |
| ApprovalSolo.ExecutesExactly | src/driftgate/approval_flow.py:259-409 | An execution executes a request exactly when it is approved and in time with quorum, the gate allowed its tier, its dry run was ok and the claim was in time with quorum; and it says so exactly when the run succeeded and was verified |
| SlidingWindow.ExhaustedIsHistory | src/driftgate/gates.py:97-117 | After any uses, the pruned queue is full exactly when the full history has that many attempts in the window |
| SlidingWindow.TrustedExactly | src/driftgate/gates.py:97-117 | A seeded queue counts what the history shows at every later look, whatever uses come between, exactly when no seed is later than the reading it came with |
| SlidingWindow.StaleBehindFuture | src/driftgate/gates.py:97-117 | With a later one, an attempt right after it and a look one window on miscount |
| SlidingWindow.AttemptsKeepDistance | src/driftgate/gates.py:104-108 | Without seeding, an attempt and the one a full limit before it are at least a window apart |
| SafetyGate.ThreeSpanAnHour | src/driftgate/gates.py:15-16 | Any three allowed attempts on a fingerprint span at least an hour |
| SafetyGate.SeededGateCountsTheLog | src/driftgate/approval_flow.py:210-222 | A fresh limiter seeded from the log counts exactly what the log shows in the window, whatever times the log holds; should the clock go back in between, in the window of the later reading |
| SafetyGate.LoggedExactly | src/driftgate/approval_flow.py:213-219 | The log's earlier attempts on a fingerprint are its allowed gate decisions, without rechecks and without the request's own |
| SafetyGate.RateLimiter.Exhausted | src/driftgate/gates.py:97-105 | Full exactly when the history has the limit in the window; the prune loop drops only stale times |
| SafetyGate.RateLimiter.Record | src/driftgate/gates.py:107-108 | Prunes at one reading and appends the other |
| SafetyGate.RateLimiter.Preload | src/driftgate/gates.py:110-117 | Merges earlier times in order |
| SafetyGate.SafetyGate.Decide | src/driftgate/gates.py:135-177 | The decision by every branch, allowed exactly when the conditions below hold and the window has room; an attempt is added to the history exactly when it is allowed |
| SafetyGate.AllowedExactly | src/driftgate/gates.py:150-204 | Allowed exactly when the proposal came in as allowed, names its tier's own gate, and every condition of its tier holds |
| SafetyGate.RefusedExactly | src/driftgate/gates.py:150-204 | Refused outright exactly when the tier is unknown or off, the known set is empty or whole, or, with nothing to downgrade for, the window is full, Tier 0 failed before or the lock's holder runs |
| SafetyGate.OnlyDowngrades | src/driftgate/gates.py:137-148 | Never weaker than what came in or than the gate's own finding, and tier, action and gate stay |
| Attempts.AttemptStore.Add | src/driftgate/tools/attempts.py:27-28 | Appends |
| Attempts.AttemptStore.ByFingerprint | src/driftgate/tools/attempts.py:30-31 | The attempts on a fingerprint, in order |
| Attempts.AttemptStore.Get | src/driftgate/tools/attempts.py:33-34 | The first attempt with the id, if any |
| Attempts.AttemptStore.Update | src/driftgate/tools/attempts.py:36-42 | Replaces the first attempt with the id and nothing else |
| CaseLoop.Orchestrator.Handle | src/driftgate/orchestrator.py:281-308 | Over any attempt store, a case ends after at most two rounds, two steps that reach the target and one revision; its pull requests are sound; in it no Tier 0 attempt follows a failed one, and ever, when executions keep their fingerprints and the store began in order; the log, the attempts, the outcome's kind and its revisions are exactly what its rounds leave, whatever they propose; nothing is logged exactly when there was nothing usable to gate, and otherwise the last steps tell the kind |
| CaseLoop.Orchestrator.RunRound | src/driftgate/orchestrator.py:310-382 | One round ends exactly as the looks outside say, in log, attempts, kind and revisions; it reaches the gate exactly when there is a usable proposal and, the second time, the failed attempt was read and the hypothesis revised |
| CaseLoop.Orchestrator.Propose | src/driftgate/orchestrator.py:374-382 | The gate's decision is logged first, and without it nothing is done and the case escalates; with it, the rest of the round follows exactly |
| CaseLoop.Orchestrator.Act | src/driftgate/orchestrator.py:389-413 | Tiers 1 and 2 and a failed dry run reach no target; Tier 0 runs and is recorded as an attempt; every tier's branch ends exactly as the looks outside say |
| CaseLoop.Orchestrator.AwaitApproval | src/driftgate/orchestrator.py:437-485 | Executes nothing: the case waits or escalates |
| CaseLoop.Orchestrator.Decide | src/driftgate/orchestrator.py:775-785 | The gate is told of failed Tier 0 attempts on the fingerprint and then allows no other |
| CaseLoop.Orchestrator.RunTier0 | src/driftgate/orchestrator.py:413-435 | Execute, record the attempt, and hand over to the hook |
| CaseLoop.Orchestrator.AddAttempt | src/driftgate/orchestrator.py:419-429 | Adds the run as an attempt with the next number on its fingerprint |
| CaseLoop.Orchestrator.ProposePr | src/driftgate/orchestrator.py:487-510 | Reviewed where there is a reviewer, otherwise proposed only when unreviewed pull requests are allowed, and else escalated |
| CaseLoop.Orchestrator.Tier3Flow | src/driftgate/orchestrator.py:512-550 | The review loop ends, opens only what was checked, approved and allowed, and leaves log, attempts, kind and revisions exactly as the checks, verdicts and the one revision say: a report, a rejection or a second wish to revise escalates |
| CaseLoop.Orchestrator.CheckAndReview | src/driftgate/orchestrator.py:519-538 | A diff is reviewed exactly when its check has no report, and no verdict is a rejection |
| CaseLoop.Orchestrator.Revise | src/driftgate/orchestrator.py:579-628 | A revision comes back exactly when it is a usable Tier 3 proposal the gate allows anew, it counts once, and what is logged is that it was asked for and what the gate said |
| CaseLoop.Orchestrator.OpenPr | src/driftgate/orchestrator.py:630-698 | The pull request carries exactly the checked contents of the approved diff; contents that delete a file or none at all escalate, and so does a refusal, with nothing else done; an accepted one is proposed, verified next when somebody verifies, and stays proposed when it holds |
| CaseLoop.Orchestrator.Submit | src/driftgate/orchestrator.py:664-698 | The target's answer decides: a refusal escalates, an acceptance is proposed and handed to the hook |
| CaseLoop.Orchestrator.After | src/driftgate/verify.py:222-246 | What was executed or proposed is settled, exactly as the looks outside say; anything else is left as it is |
| CaseLoop.Orchestrator.Settle | src/driftgate/verify.py:82-246 | The attempt is marked as verified or failed; verified closes the case, failed is handled; log, attempts, kind, revisions and second round are exactly what the look outside says |
| CaseLoop.Orchestrator.AfterFailure | src/driftgate/verify.py:229-246 | A second round starts exactly when no kill switch stopped the rollback, it is the first round, nothing failed on the fingerprint before, and the allowance grants it; otherwise the case escalates |
| CaseLoop.Orchestrator.Record | src/driftgate/verify.py:82-122 | The result is recorded on the row the attempt's id finds, and failures on record stay when it is one |
| CaseLoop.Orchestrator.EnsureAttempt | src/driftgate/verify.py:138-148 | There is an attempt to record on, the newest and not marked yet; one is added only when there was none |
| CaseLoop.Orchestrator.Reinvestigate | src/driftgate/verify.py:249-291 | The second round's outcome becomes the case's, with revisions carried over |
| CaseTells.RoundTells | src/driftgate/orchestrator.py:310-698 | However a round ends, its last steps tell the kind: a refusal, a report, a verdict that is not an approval, a refused pull request and a failed verification escalate, a verified run is executed, a verified or accepted pull request is proposed; a round that logged nothing escalates |
| CaseTells.LogsExactly | src/driftgate/orchestrator.py:310-374 | A round logs something exactly when there was a usable proposal with its facts and, the second time, allowance left, the failed attempt read and the hypothesis revised |
| CaseTells.GoesBackExactly | src/driftgate/verify.py:222-246 | The hook goes back for a second round exactly when what was done did not hold, no kill switch stopped its rollback, it was the first round with one left, and no other attempt on the fingerprint had failed |
| CaseLoop.MarkedKeepsRecord | src/driftgate/tools/attempts.py:36-42 | Marking the newest attempt erases no failure |
| CaseLoop.SharedIdExactly | src/driftgate/verify.py:138-148 | The newest attempt's id finds another row exactly when its execution was put on another fingerprint before and had as many attempts there |
| CaseLoop.SharedIdErasesFailure | src/driftgate/tools/attempts.py:36-42 | Marking the newest attempt as verified erases a failure exactly when its id finds another row and that is the only failed Tier 0 attempt on its fingerprint |
| CaseLoop.SharedIdMissesFailure | src/driftgate/tools/attempts.py:36-42 | Marking a Tier 0 attempt as failed leaves no failure on its own fingerprint exactly when its id finds another row and none was there before |
| CaseRun.FailureForgotten | src/driftgate/orchestrator.py:281-435 | A run of two cases that gets there: the second one reruns at Tier 0 on a fingerprint where a rerun had failed |
| Budget.OneBudget | src/driftgate/llm/budget.py:55-114 | However agents interleave, the case's tool calls are the direct ones plus every view's, within the cap, and each view is within its own |
| Budget.InvestigationBudget.ConsumeToolCall | src/driftgate/llm/budget.py:55-61 | Counts one call or refuses it, never past the limit: the direct event of the shared allowance |
| Budget.InvestigationBudget.BeginReinvestigation | src/driftgate/llm/budget.py:63-69 | Counts one re-investigation or refuses it |
| Budget.BudgetView.ConsumeToolCall | src/driftgate/llm/budget.py:105-110 | Granted only when view and case both have room, and then counted in both: the view's three events of the shared allowance, one after the other |
| Budget.BudgetView.AddCall | src/driftgate/llm/budget.py:112-114 | A model call is charged to the view and to the case |
| Agents.Investigate | src/driftgate/agents/investigator.py:274-324 | The loop ends; every model call begins below the token cap; tool-call ids are distinct; the count is charged and capped; evidence cites only those ids; only a sound report with evidence proposes |
| Agents.TakeTurn | src/driftgate/agents/investigator.py:284-322 | One turn by every branch: the call begins below the token cap, and what ends there fails closed |
| Agents.RunTools | src/driftgate/agents/investigator.py:312-322 | Repeated or empty ids are rejected, the others charged, until the allowance is spent |
| Agents.Kept | src/driftgate/agents/investigator.py:421-435 | Kept citations all name a tool result |
| AgentLaws.StopTells | src/driftgate/agents/investigator.py:274-324 | An investigation stops for the reason it gives, at the first answer that gives one, with every reply before charged and none of them the report; it takes two that ask for nothing to give up on one |
| AgentLaws.ReportTells | src/driftgate/agents/investigator.py:421-475 | A report keeps exactly the citations of tool results, and proposes exactly when it is sound, has one left, does not abstain and has something to propose; anything else proposes nothing |
| AgentLaws.ChargedExactly | src/driftgate/agents/investigator.py:312-322 | Of a reply's calls, every id asked for is run while the allowance lasts, nothing else is, and it ends exactly when one more is asked for than it covers |
| Agents.ReviewDiff | src/driftgate/agents/reviewer.py:144-193 | The loop ends within the view's and the case's allowance, and anything but a submitted verdict rejects |
| Agents.TakeReviewTurn | src/driftgate/agents/reviewer.py:149-192 | One turn of the review by every branch |
| Agents.RunReviewTools | src/driftgate/agents/reviewer.py:177-191 | Only the one read-only tool runs, each id once, charged to view and case |
| AgentLaws.VerdictTells | src/driftgate/agents/reviewer.py:144-236 | A review passes on the verdict of the first reply that submits one and rejects when there is none in time, none valid, or an allowance or the talk ended first |
| AgentLaws.ReviewBeginsBelow | src/driftgate/agents/reviewer.py:149-166 | Every model call of a review began below its own token cap and below the case's |
| AgentLaws.ReviewedExactly | src/driftgate/agents/reviewer.py:177-191 | Every new id for the read-only tool gives a result charged to view and case alike, and the calls break off only when one of the two is spent |
| LogText.CollapseRepeats | src/driftgate/tools/logtext.py:46-67 | The run loops compute the collapse |
| LogText.KeptOrRepeated | src/driftgate/tools/logtext.py:46-67 | Every line is kept, or the first line of its run is |
| LogText.ErrorsSurviveExactly | src/driftgate/tools/logtext.py:46-67 | Of every log with an error-like line one is left, exactly when no line shows less than a line that counts as its repeat |
| LogText.ErrorIsTraced | src/driftgate/tools/logtext.py:46-67 | Then each error-like line is kept, or an error-like line it repeats is |
| LogText.ErrorIsLeftExactly | src/driftgate/tools/logtext.py:46-67 | Of one log an error-like line is left exactly when a run of at most two lines has one, or a longer one begins or ends with one |
| LogText.RunsAreTheLog | src/driftgate/tools/logtext.py:46-67 | The runs make up the log, and the lines of each repeat its first, a spinner frame any other |
| LogText.RunsAreWhole | src/driftgate/tools/logtext.py:54-59 | A run goes on as long as the next line repeats its first |
| LogText.CollapsedExactly | src/driftgate/tools/logtext.py:60-66 | A run of one or two lines, or of blank ones, is kept; of a longer one the first line is left and a summary with its length and last line |
| LogText.SpinnersHideAnError | src/driftgate/tools/logtext.py:53-63 | An error between two spinner frames without one leaves no error at all |
| LogText.FindSegments | src/driftgate/tools/logtext.py:79-105 | The nested index loops compute the segments |
| LogText.EveryErrorOnce | src/driftgate/tools/logtext.py:79-105 | Every error-like line and every box opening lies in exactly one segment |
| LogText.SegmentsCover | src/driftgate/tools/logtext.py:79-105 | Segments are in order, disjoint, and begin at a line worth reporting |
| LogText.BoxEndExactly | src/driftgate/tools/logtext.py:86-91 | A box ends right behind its first closing line, or with the log |
| LogText.RunsAreTight | src/driftgate/tools/logtext.py:92-102 | A run holds no box and no two lines in a row without an error, and ends with one |
| LogText.RunsAreMaximal | src/driftgate/tools/logtext.py:94-100 | A run goes on as far as those rules let it |
| LogText.MergeSegments | src/driftgate/tools/logtext.py:111-127 | One block a text, counting the segments with that text, with the first one's rank, signature and line |
| LogText.BestExactly | src/driftgate/tools/logtext.py:118-123 | A block's signature is the first line's of those with the highest rank above 1, if there is one |
| LogText.JoinedByNewlines | src/driftgate/tools/logtext.py:114-114 | A block's text is its lines with newlines between them |
| LogText.CountsAddUp | src/driftgate/tools/logtext.py:113-126 | The counts add up to the number of segments |
| LogText.ErrorBlocks | src/driftgate/tools/logtext.py:108-129 | The blocks are ranked, carry their first segment's rank, signature and line, and together account for every segment |
| LogText.EveryErrorInABlock | src/driftgate/tools/logtext.py:108-129 | Every error-like line is in the text of a block |
| LogText.EveryBlockIsWritten | src/driftgate/tools/logtext.py:132-151 | In full, every block stands behind its head, after those before it and ahead of those behind |
| LogText.RenderBudgeted | src/driftgate/tools/logtext.py:132-151 | Within the budget; cut exactly when the blocks together do not fit, and then as many whole blocks as fit and a marked piece of the next; otherwise every block in full |

## Left out

- HTTP, SDK and GitHub clients, SQLite files and JSONL files: store, ledger and log are in-memory relations whose
  transactions and appends are atomic steps.
- Floating point: amounts are real numbers, so rounding and the order of additions are not modelled.
- Secret, redaction, signature and path patterns: they are parameters, and the theorems hold for any of them.
- The Unicode tables themselves: three facts about them are assumed, see above.
- Non-ASCII digits in hunk headers, which the source's pattern would accept: `DiffParse.IsDigit` is ASCII. The limit on
  a number's digits is the interpreter's default, 4300.
- `difflib`, with which the source prints diffs for its own tests: the printer here is a specification.
- Line numbers and wording in error messages: errors are kinds.
- The order in which a rename's two paths are reported, which the source leaves to a set.
- Spend.LifetimeSpendBound: reservations are per process, so the bounds are for one process.
- FlowLaws.LogTellsTheTruth: is about calls one after the other and one request an execution; nothing is said about the
  order in which concurrent callers' entries come to stand.
- A store or an audit log that fails in the middle of a call: a call that raises does so in the target.
- Who is notified, report rendering, the command line, the synthetic generator, metrics and the history index.
- The text fields of reports, outcomes and notes beyond what decides something; `rollback` itself, of which only the
  kill switch stopping it is modelled.
- ApprovalMachine.MoveBalances: where a caller reads a row again only for fields that never change, the step uses the row
  it already has; the extra read of the approvals count for an audit line is not a step.
- Investigation inside `CaseLoop`: it takes any investigation the outside offers; the agent loops and their allowance
  are proved on their own in `Agents` and `Budget`.
- Limits.RateBound: assumes a clock that does not go back and amounts granted at arrival plus the returned wait, as the
  source's monotonic clock and sleep give.
- The concurrency limiter's semaphore: a library's promise.
