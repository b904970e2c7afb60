# Verified model of the Lumine decision backend

A Dafny model of the deterministic core of a trading backend and of two text
codecs of its frontend, with proofs of what that core promises. Check the whole
project with `dafny verify dfyconfig.toml`.

## What is modelled

**The audit log.** `Canonical`, `JsonText` and `DecimalNotation` give the bytes
that are hashed: decimals in normal form, keys sorted at every level, JSON
printed without spaces in pure ASCII. `HashChain` links rows, `Verifier` replays a table and
says what its verdict means, `RowContent` says which members of a row its hash covers, `ChainWriters` is the state machine of concurrent
writers under a per-table lock, `Anchoring` copies chain heads into a
write-once sink inside transactions that may roll back. `AnchoredChain` puts a
table and its anchors into one transaction, and `AuditOfCycles` says what the
replay reports about the tables that decision cycles write. SHA-256 is a parameter:
any function with 64-character results. No result assumes it injective on all
texts, which no such function is; where collisions matter the result names the
finite set of texts that must not collide.

**From decision to broker.** `Orchestrator` is one decision cycle: checks of
the deadline, stages, journal rows, sizing, risk, one lineage transaction, then
the router. Clocks, stage results, commits and the router's answer are inputs,
so every way each can fail is covered. `DecisionSafety` proves what cycles and
runs of cycles keep, `CycleOutcome` what one cycle returns, raises and leaves in
every case, `InterleavedCycles` what they keep when any number of them
interleave on one database. `RiskSizing` holds the arithmetic below the cycle.
`ExecutionRouter` is the state machine of concurrent dispatches with the
database marker, the expiring claim, bridge timeouts, commits and rollbacks.

**Data and reports.** `Collector` is the tick aggregator and the resampler,
`Backtest` the one-pass backtest, `Rollups` the execution-quality rollups and
alerts, `Fallback` the model gateway's fallback chain and usage record.

**Codecs.** `EventStream` is the incremental event-stream parser of the
frontend, `Csv` its export printer. `Ordering`, `Sorting` and `Text` are shared.

Code that changes state in the repository is a class or a method with loops
here, proved equal to a function of its inputs or its old state; the theorems
are lemmas about that function. Beside each such function a lemma or the method's
contract says what it gives in plain terms, with the source's own numbers, names
and columns. Decimal arithmetic is exact (`real`).

## What the proofs found

Each of these is a statement that the documentation or the obvious reading
makes and the code does not keep. One of the members named proves the exact
condition or the whole failing family; where an input does not follow from it at
once, another is an input.

- The chain lock does not by itself prevent forks. A row's timestamp is taken
  before the lock, and chain order is by that timestamp. The table that a run of
  writers leaves is accepted exactly when every commit followed all committed
  keys (`ChainWriters.AcceptedExactlyWhenGuarded`), and
  `ChainWriters.LateCommitForks` is a run of three writers that forks.
- Linking trace and journal rows to their lineage edits a hashed column: from
  then on the verifier reports every row whose id is not the one it was hashed
  with (`Verifier.BackfillFailsEveryRelinkedRow`). After a recorded cycle that is
  every trace of its evidence and every journal row of its workflow that stood
  before (`AuditOfCycles.ReplayReportsLinkedTraces`,
  `AuditOfCycles.ReplayReportsRelinkedJournal`). The link is by workflow, so a
  later recorded cycle of the same workflow moves the journal links of earlier
  ones (`DecisionSafety.JournalLinkKeptExactly`, `DecisionSafety.MovedLinkInput`).
- The size column keeps four places. A lineage row stores the returned volume
  exactly when that is a whole number of ten-thousandths
  (`DecisionSafety.ResultIsRecorded`); a base of 1.01 lots and a multiplier of
  0.125 give 0.12625, of which 0.1263 are stored (`DecisionSafety.RoundedInput`).
  The row was hashed with the longer number, so it fails its own replay exactly
  then (`AuditOfCycles.LongSizesFailExactly`, `AuditOfCycles.LongSizeInput`).
- The trace ids stored in an approved or rejected proposal leave out the risk
  assessor's (`DecisionSafety.StoredTracesCompleteExactly`,
  `DecisionSafety.UnlistedTraceInput`).
- The violations stored in a lineage row are the reasons returned exactly when a
  trade was not vetoed (`DecisionSafety.ResultIsRecorded`); a vetoed trade inside
  every limit stores an empty list (`DecisionSafety.VetoedInput`).
- An exception from a cycle does not mean that nothing was sent: a router error
  or a failing last journal row is raised after the command was handed over
  (`DecisionSafety.RaisedAfterDispatchExactly`, `DecisionSafety.RaisedInput`). And
  an approved row is left without a command exactly when the commit's reply is
  lost or the command cannot be built (`DecisionSafety.EventsExactly`).
- A rollback after an object was stored leaves an orphan that ends the anchoring
  of its table for good (`Anchoring.RollbackOrphansExactly`,
  `Anchoring.OrphanInput`, `Anchoring.OrphanStopsAnchoring`).
- The lineage writer counts one row at every call of the anchoring, so after a
  table's first anchor the row cadence never fires: the minutes alone decide
  (`Anchoring.OneRowCallsGoByTheClock`, `Anchoring.HourlyInput`).
- Truncating a table is invisible to the replay (`Verifier.TruncationIsInvisible`);
  an anchored head is what shows it (`Verifier.AnchoredHeadPinsHistory`,
  `AnchoredChain.AnchorsPinHistory`).
- `docs/12-security/audit-tamper-evidence.md:29` makes `prev_hash` the digest of
  the previous row's JSON; the code stores the previous `self_hash`. An accepted
  table keeps the documented rule exactly when it has at most one row
  (`Verifier.DocumentedLinkHoldsExactly`, `ChainWriters.DocumentedLinkInput`).
- Lines 57-58 of that document promise numbers without scientific notation; the
  code prints exactly the nonzero multiples of ten and the numbers below a
  millionth that way, whatever zeros they are stored with
  (`DecimalNotation.HashedScientificExactly`): 100.00 becomes `1E+2`
  (`DecimalNotation.HundredIsScientific`). Zeros of opposite sign stay apart
  (`Canonical.NormalFormDecidesEquality`).
- Risk limits hold over any sequence of proposals assessed one after another.
  Assessed against one snapshot, `k` approvals are safe for a limit exactly when
  `k` times the largest admitted notional fits into its room
  (`RiskSizing.StaleTotalExactly` and its companions for the correlated, strategy
  and position limits); with the default limits three are not
  (`RiskSizing.StaleSnapshotBreaksTheLimit`).
- The fallback chain's own description raises the no-fallbacks error whenever
  the primary fails without hops; the code raises it only when the last failure
  is not transient (`Fallback.GapErrorExactly`, `Fallback.GapInput`). Two routes on one model are
  booked to the first (`Fallback.HopRecordedExactly`, `Fallback.SharedModelMisbooks`).
- After a fatal event the parser's leftover buffer depends on how the text was
  cut, except where the unread text ends like the read one behind a line feed
  (`EventStream.ChunkingInvariance`, `EventStream.LeftoverAfterStopDepends`), and
  a leading empty data line is lost (`EventStream.GatherIsJoinExactly`,
  `EventStream.GatherInput`).
- CSV rows read back exactly when there is a column (`Csv.CsvRoundTrip`).
- The backtest's own description enters on a cross and compares with a 20-bar
  volume average; the code compares the close with its mean and every volume
  with the average of the first twenty. The runs under either rule are the same
  exactly when the rules agree at every bar at which the book is flat
  (`Backtest.RunsAgreeExactly`); `Backtest.EntryRulesAgreeExactly` and
  `Backtest.VolumeAveragesAgreeExactly` say when they agree at a bar; `Backtest.StayingAboveIsEntered` and
  `Backtest.LoudStartIsMissed` are a market for each difference. The exit rule
  does agree (`Backtest.ExitIsACross`).
- Bars rolled up from the stream equal bars of the ticks exactly while the clock
  stays in the newest tick's bucket, or when the running bar has no volume, no new
  close and no new extreme in the bucket the emitted bars end with
  (`Collector.RollingUpTheStream`, `Collector.LateClockInputs`).

## Model

| member | source | states |
|---|---|---|
| Canonical.NormalFormDecidesEquality | backend/src/lumine/security/hashchain.py:98-102 | two decimals share a normal form exactly when they are the same number, zeros of opposite sign apart |
| Canonical.SameContentCanonicalizes | backend/src/lumine/security/hashchain.py:87-110 | rows equal as nested maps canonicalise alike, whatever the key order at any level |
| Canonical.CanonicalizeIsFaithful | backend/src/lumine/security/hashchain.py:87-110 | different content never canonicalises alike |
| JsonText.CanonicalJsonDecidesContent | backend/src/lumine/security/hashchain.py:113-127 | the printed bytes, escapes and floats included, are equal exactly when the rows have the same content |
| JsonText.EscapesExactly | backend/src/lumine/security/hashchain.py:122-127 | the seven short escapes, and every other printable ASCII character as itself |
| JsonText.NumericEscapesInput | backend/src/lumine/security/hashchain.py:122-127 | a numeric escape and the surrogate pair of a character beyond the basic plane |
| JsonText.PrintedInput | backend/src/lumine/security/hashchain.py:113-127 | the exact bytes of a small row: keys sorted, no spaces, numbers and flags bare, decimals as text |
| DecimalNotation.DecimalTextReadsBack | backend/src/lumine/security/hashchain.py:98-102 | every decimal is read back from its text, coefficient and exponent alike |
| DecimalNotation.TextDecidesNumber | backend/src/lumine/security/hashchain.py:98-102 | two decimals feed the same text to the hash exactly when they are the same number, zeros of opposite sign apart |
| DecimalNotation.ScientificExactly | backend/src/lumine/security/hashchain.py:98-102 | the text is scientific exactly for a positive exponent or a value below the sixth decimal place |
| DecimalNotation.HashedScientificExactly | backend/src/lumine/security/hashchain.py:92-102 | against the documentation, the hashed text of a number is scientific exactly for nonzero multiples of ten at any stored exponent and for nonzero numbers below a millionth |
| DecimalNotation.HundredIsScientific | backend/src/lumine/security/hashchain.py:98-102 | 100.00 is hashed as 1E+2 and 1E+1 as it stands |
| HashChain.PrecedesExactly | backend/src/lumine/security/hashchain.py:52-61 | chain order is by clock and then by the first character in which the keys differ |
| RowContent.HashCoversTheRow | backend/src/lumine/security/hashchain.py:140-180 | a self hash is the digest of the link and the JSON object of exactly these members in key order: the clock under created_at or ts, the key under lineage_id, id or trace_id, the version, the link and every other column |
| Verifier.VerifyRows | backend/src/lumine/security/verifier.py:54-104 | the replay loop reports row by row what each row and its predecessor deserve, and the last stored hash as head; `RowContent.ReportExactly` writes the reports of a row out |
| RowContent.ReportExactly | backend/src/lumine/security/verifier.py:67-97 | the reports about a row: a version other than 1, no place behind its predecessor, a link that is not the stored hash before it or the digest of GENESIS, a hash that is not the digest of its members, each with position, expected and found value |
| RowContent.ReportsInOrder | backend/src/lumine/security/verifier.py:67-104 | the report of a table is the reports of its rows in order of position |
| Verifier.AcceptedMeansValid | backend/src/lumine/security/verifier.py:60-97 | no failure is reported exactly for chains in which every row is well ordered, linked and hashed |
| Verifier.HeadDeterminesHistory | backend/src/lumine/security/verifier.py:60-104 | two accepted non-empty tables with the same head have the same length, hashes and contents, row by row |
| RowContent.HeadDeterminesRows | backend/src/lumine/security/verifier.py:60-104 | two accepted tables with one head agree row by row in key, clock, version, link and, as nested maps, in every other column |
| RowContent.EveryEditIsReported | backend/src/lumine/security/verifier.py:67-97 | whatever is edited, clock, key and version included, while the order is kept: one self_hash failure at each edited row, an unsupported version where there is one, and nothing else |
| RowContent.EditedClockInput | backend/src/lumine/security/verifier.py:90-95 | a second row moved to a later clock is reported, and the first is not |
| Verifier.LinksAreDistinct | backend/src/lumine/security/hashchain.py:155-180 | no two rows of an accepted table share a link or a hash |
| Verifier.TamperingIsLocalised | backend/src/lumine/security/verifier.py:67-97 | after any deletions and edits exactly one prev_hash failure per gap, one self_hash failure per edited row, and no other |
| Verifier.TruncationIsInvisible | backend/src/lumine/security/verifier.py:67-97 | every prefix of an accepted table is accepted |
| Verifier.AnchoredHeadPinsHistory | backend/src/lumine/security/verifier.py:60-104 | an accepted table still holds an anchored hash exactly when it still begins with the whole anchored history |
| Verifier.DifferenceIsReported | backend/src/lumine/security/verifier.py:67-97 | a table read back with other values in one column reports exactly the rows whose value prints differently from what was hashed |
| Verifier.RoundingFailsExactly | backend/src/lumine/security/verifier.py:90-95 | rows hashed before their column rounds a number are reported exactly where the number changed |
| Verifier.BackfillFailsEveryRelinkedRow | backend/src/lumine/autogen_pipeline/orchestrator.py:637-647 | after any backfills exactly the rows whose lineage id is no longer the one they were hashed with report one self_hash failure each, and no row any other |
| Verifier.DocumentedLinkHoldsExactly | backend/src/lumine/security/hashchain.py:166-180 | an accepted table keeps the documented rule, link equal to the digest of the previous JSON, exactly when it has at most one row |
| ChainWriters.DocumentedLinkInput | backend/src/lumine/security/hashchain.py:166-180 | an accepted table of two rows whose link is not the documented one |
| ChainWriters.GuardedRunsStayValid | backend/src/lumine/security/hashchain.py:188-249 | over every interleaving whose commits follow all committed keys, the table stays accepted and each writer past its lock works on the current head |
| ChainWriters.GuardedRunsNeverFork | backend/src/lumine/autogen_pipeline/traces.py:91-105 | such a run never uses a link twice |
| ChainWriters.AcceptedExactlyWhenGuarded | backend/src/lumine/security/hashchain.py:188-249 | of any interleaving from an empty table the final table is accepted exactly when every commit followed all committed keys |
| ChainWriters.CommitIsSafeExactlyInOrder | backend/src/lumine/autogen_pipeline/journal.py:52-80 | a row chained to the head keeps the table accepted exactly when its key follows every committed key |
| ChainWriters.LateCommitForks | backend/src/lumine/autogen_pipeline/traces.py:72-105 | a run in which a stamp older than a commit forks the chain and the verifier rejects it |
| ChainWriters.ChainedTable.ReadLastHash | backend/src/lumine/security/hashchain.py:225-249 | the head is the last stored hash in chain order, the digest of GENESIS for an empty table |
| ChainWriters.ChainedTable.Append | backend/src/lumine/security/hashchain.py:188-222 | on commit the table has one row more: the stamped one, linked to the last stored hash, with the digest over its members as its own hash, placed by clock and key; on rollback it is unchanged; the lock is free again |
| ChainWriters.AppendIsARun | backend/src/lumine/security/hashchain.py:188-222 | the undisturbed append is one of the interleavings of the state machine |
| Anchoring.AnchorsAreSafe | backend/src/lumine/security/anchoring.py:110-208 | over any commits and rollbacks anchors are numbered 1 to the last number, each has an equal stored object, objects never change, none lies more than one ahead |
| Anchoring.RollbackOrphansExactly | backend/src/lumine/security/anchoring.py:150-208 | a call and a rollback leave an orphan exactly when the call stored its object or found one, an AnchorError included |
| Anchoring.RollbackOrphans | backend/src/lumine/security/anchoring.py:150-208 | rolling back a staged anchor always leaves its object without it |
| Anchoring.OrphanInput | backend/src/lumine/security/anchoring.py:150-208 | a first anchor whose object outlives its transaction |
| Anchoring.OrphanStopsAnchoring | backend/src/lumine/security/anchoring.py:150-208 | after an orphan no further anchor of the table is ever committed |
| Anchoring.AdvancesExactlyWhen | backend/src/lumine/security/anchoring.py:125-208 | an anchor is staged exactly without a checkpoint, after enough rows or after enough minutes, with a head, an unused key and nothing failing |
| Anchoring.OutcomesExactly | backend/src/lumine/security/anchoring.py:125-208 | every outcome of a call with the cadence written out: quiet, broken by the head or the sink, doomed, or the anchor with its number, hash, row and checkpoint, and the object that is stored |
| Anchoring.EndsExactly | backend/src/lumine/security/anchoring.py:150-208 | a commit adds the staged anchor, checkpoint or event and nothing else, a rollback nothing at all |
| Anchoring.OneRowCallsGoByTheClock | backend/src/lumine/data/lineage.py:143-148 | over every run in which each call counts one row, a call stages an anchor exactly when it is the first or the minutes have passed, and is quiet exactly when neither holds or the chain is empty |
| Anchoring.HourlyInput | backend/src/lumine/data/lineage.py:143-148 | a table anchored an hour ago is anchored again without a counted row, one anchored 299 seconds ago is not |
| Anchoring.LocalWorm.Store | backend/src/lumine/security/worm_local.py:54-76 | an object is created exclusively: an existing key is an error and stays unchanged |
| Anchoring.Coordinator.MaybeAnchorNow | backend/src/lumine/security/anchoring.py:110-208 | the coordinator's branches have exactly the effect of one anchoring step |
| AnchoredChain.AppendExactly | backend/src/lumine/data/lineage.py:117-162 | the anchoring of an append reads the head of the table, with the append's own row if its query sees it, or fails to; the table has the row more exactly when the append commits |
| AnchoredChain.AnchorsHoldHeads | backend/src/lumine/data/lineage.py:135-162 | over every run of appends, in order or not, each committed anchor holds the hash and key of a committed row |
| AnchoredChain.GuardedAppendsStayValid | backend/src/lumine/data/lineage.py:135-162 | appends in order keep the anchored table accepted, whatever happens to its anchors |
| AnchoredChain.AnchorsPinHistory | backend/src/lumine/security/anchoring.py:150-208 | each such anchor holds the head of an accepted beginning of the table, and a later accepted table holds that hash exactly when it still begins with it |
| ExecutionRouter.SendAccounting | backend/src/lumine/trade_core/execution_router.py:104-123 | in every reachable state claims of a key are effective releases plus expiries plus one while held, and sends are at most failed persistences plus expiries plus one while held |
| ExecutionRouter.OneOutcomePerDecision | backend/src/lumine/trade_core/execution_router.py:128-168 | in every reachable state a lineage has at most one fill, each fill its marker and exactly one TCA record |
| ExecutionRouter.FillsExactly | backend/src/lumine/trade_core/execution_router.py:128-168 | in every reachable state a call that reported a status has its marker, and a fill of its lineage exactly when it had TCA metadata and the status is filled or partial |
| ExecutionRouter.MarkedLineageIsReplayed | backend/src/lumine/trade_core/execution_router.py:99-102 | a dispatch started after the marker commits never claims or sends and returns the stored status |
| ExecutionRouter.DispatchIsARun | backend/src/lumine/trade_core/execution_router.py:89-184 | the undisturbed call is one of the interleavings |
| ExecutionRouter.Router.Dispatch | backend/src/lumine/trade_core/execution_router.py:89-184 | the method ends in the state and outcome of that run; each outcome, what is stored for filled, partial and other answers, and what becomes of the claim is written out, for a claim that errors and a commit whose reply is lost too |
| Orchestrator.DecisionOrchestrator.Execute | backend/src/lumine/autogen_pipeline/orchestrator.py:218-521 | the imperative cycle ends in the database, log and result of the composed steps, for every failing check, stage, row, commit, lost reply or command; `CycleOutcome.CycleExactly` says what these are |
| CycleOutcome.CycleExactly | backend/src/lumine/autogen_pipeline/orchestrator.py:218-521 | a cycle raises the first fault in the order of its checks, deadlines of 500, 800, 800, 1000 and 500 milliseconds included, and otherwise returns verdict, volume and broken rules of its figures; which rows and commands, journal rows and traces it leaves in each case |
| CycleOutcome.ApprovedRowExactly | backend/src/lumine/autogen_pipeline/orchestrator.py:399-463 | a committed row of a trade approves it exactly when its volume is inside every limit, the kill switch off, and there is no veto |
| CycleOutcome.RowExactly | backend/src/lumine/autogen_pipeline/orchestrator.py:424-463 | the committed row holds action, evidence in order and, for a trade, its rounded size, its broken rules and the veto flag |
| CycleOutcome.SizingOutcome | backend/src/lumine/trade_core/sizing_calculator.py:40-136 | a trade is sized exactly on well-formed figures and otherwise names the first that is not |
| Orchestrator.DecisionOrchestrator.WriteLineage | backend/src/lumine/autogen_pipeline/orchestrator.py:576-657 | row and links become visible in one commit, or the database stays as it was; a lost reply raises with all of it visible |
| Orchestrator.DecisionOrchestrator.RunAnalysts | backend/src/lumine/autogen_pipeline/orchestrator.py:225-240 | all four analysts must end well with evidence of their own before the journal row |
| DecisionSafety.DeliberationExactly | backend/src/lumine/autogen_pipeline/orchestrator.py:225-326 | a proposal is reached exactly when every check, stage and journal row passes, with the trace ids in order |
| DecisionSafety.AfterShape | backend/src/lumine/autogen_pipeline/orchestrator.py:328-521 | every cycle is its preparation, one lineage transaction and a closing |
| DecisionSafety.EventsExactly | backend/src/lumine/autogen_pipeline/orchestrator.py:443-506 | a cycle logs one row exactly when recordable, approved exactly when the trade fits and is not vetoed, and its command directly behind exactly when the reply arrives and it can be built |
| DecisionSafety.RunsStayFaithful | backend/src/lumine/autogen_pipeline/orchestrator.py:465-506 | over every run of whole cycles each command stands directly behind its own approved row of the same id, action and size to four places, without violations or veto |
| DecisionSafety.AtMostOneCommand | backend/src/lumine/autogen_pipeline/orchestrator.py:465-506 | no run hands over two commands for one lineage, even if two cycles drew the same id |
| DecisionSafety.EveryCommandWasCleared | backend/src/lumine/autogen_pipeline/orchestrator.py:465-506 | every command of a run comes from a cycle that was cleared in the state it started from |
| DecisionSafety.RaisedAfterDispatchExactly | backend/src/lumine/autogen_pipeline/orchestrator.py:500-521 | a cycle that hands over its command raises exactly on a router error or a failing last journal row |
| DecisionSafety.RaisedInput | backend/src/lumine/autogen_pipeline/orchestrator.py:500-521 | a cycle that raises with its command handed over |
| DecisionSafety.ReturnsExactly | backend/src/lumine/autogen_pipeline/orchestrator.py:330-521 | a cycle returns exactly when its row is committed and nothing behind the commit fails |
| DecisionSafety.ResultIsRecorded | backend/src/lumine/autogen_pipeline/orchestrator.py:424-463 | verdict and reasons returned can be read off the committed row, the volume to four places and exactly when it has no more; the stored violations are the reasons exactly without a veto |
| DecisionSafety.RoundingKeepsExactly | backend/src/lumine/data/models.py:295 | the size column keeps exactly the whole ten-thousandths and is never off by more than half of one |
| DecisionSafety.RoundedInput | backend/src/lumine/autogen_pipeline/risk_assessor.py:133-134 | an approved cycle that returns and sends 0.12625 lots and stores 0.1263 |
| DecisionSafety.VetoIsNoStoredViolation | backend/src/lumine/autogen_pipeline/orchestrator.py:439-463 | a vetoed trade inside every limit returns the veto as its one reason and stores no violation |
| DecisionSafety.VetoedInput | backend/src/lumine/autogen_pipeline/orchestrator.py:424-463 | a concrete vetoed buy for which this happens |
| DecisionSafety.EveryCommandFits | backend/src/lumine/autogen_pipeline/orchestrator.py:399-423 | every command of a run was inside every limit of its cycle, strategy limit and daily-loss halt included, with the kill switch off |
| DecisionSafety.BandExactly | backend/src/lumine/autogen_pipeline/orchestrator.py:70-83 | the band is low below half a percent of the price, med below one percent, high from there, and low without a price |
| DecisionSafety.EveryCommandIsSized | backend/src/lumine/autogen_pipeline/orchestrator.py:351-397 | every command of a run has the largest base of hundredths inside its budget times the policy number of its bucket and band, kept in range, and its stop one distance away |
| DecisionSafety.CommandIsBounded | backend/src/lumine/autogen_pipeline/orchestrator.py:351-397 | a command's volume is in range, the minimum or within the multiplied risk budget, its stop on the losing side |
| DecisionSafety.LinksCommitTogether | backend/src/lumine/autogen_pipeline/orchestrator.py:589-657 | exactly the cycle's traces are linked to its row if the row is committed, none if not, and earlier links stay |
| DecisionSafety.StoredTracesCompleteExactly | backend/src/lumine/autogen_pipeline/orchestrator.py:325-397 | the ids stored in the proposal are all linked; they list every linked trace exactly when no risk assessor trace exists |
| DecisionSafety.UnlistedTraceInput | backend/src/lumine/autogen_pipeline/orchestrator.py:325-397 | a cycle whose row is linked to a trace it does not list |
| DecisionSafety.JournalLinkKeptExactly | backend/src/lumine/autogen_pipeline/orchestrator.py:642-647 | an earlier journal row keeps its link exactly when the cycle records nothing or has another workflow |
| DecisionSafety.MovedLinkInput | backend/src/lumine/autogen_pipeline/orchestrator.py:642-647 | a journal row whose link moves to a later lineage |
| DecisionSafety.RunsLeaveNoDangling | backend/src/lumine/autogen_pipeline/orchestrator.py:589-657 | over every run no trace and no journal row names a lineage that does not exist |
| DecisionSafety.LineageIsAppendOnly | backend/src/lumine/data/lineage.py:135-164 | a run adds lineage rows and changes none |
| InterleavedCycles.PlanIsCycle | backend/src/lumine/autogen_pipeline/orchestrator.py:218-521 | a cycle is its plan of transactions played without a pause |
| InterleavedCycles.UndisturbedCycle | backend/src/lumine/autogen_pipeline/orchestrator.py:218-521 | a cycle that nobody disturbs is one of the interleavings |
| InterleavedCycles.WriteBeforeDispatch | backend/src/lumine/autogen_pipeline/orchestrator.py:465-506 | however cycles interleave, each command has an approved row of its decision committed somewhere before it, and no lineage sees two commands, even under one id |
| InterleavedCycles.EveryCommandHasASender | backend/src/lumine/autogen_pipeline/orchestrator.py:399-506 | each command of an interleaved run is that of a cycle of the run whose trade fits every limit and was not vetoed |
| InterleavedCycles.InterleavedRunsLeaveNoDangling | backend/src/lumine/autogen_pipeline/orchestrator.py:628-657 | however cycles interleave, no trace and no journal row names a lineage that does not exist |
| AuditOfCycles.ReplayReportsRelinkedJournal | backend/src/lumine/autogen_pipeline/orchestrator.py:642-647 | after a cycle the replay of the journal reports exactly the rows of its workflow that stood when its lineage row was committed |
| AuditOfCycles.ReplayReportsLinkedTraces | backend/src/lumine/autogen_pipeline/orchestrator.py:637-641 | after a cycle the replay of the traces reports exactly those its lineage transaction linked |
| AuditOfCycles.StoredNumberKeepsExactly | backend/src/lumine/data/models.py:295 | a four-place column keeps exactly the whole numbers of ten-thousandths, however they are written |
| AuditOfCycles.LongSizesFailExactly | backend/src/lumine/data/lineage.py:122-139 | a lineage row fails its own replay exactly when the size it was hashed with has more than four places or is a negative zero |
| AuditOfCycles.LongSizeInput | backend/src/lumine/data/models.py:295 | 0.12625 is kept as 0.1263, and 0.12500 as it is |
| RiskSizing.AssessProposal | backend/src/lumine/trade_core/risk_validator.py:76-126 | every violated limit is listed in order, approval means exactly that the proposal fits the book in money, and the figures are the shares of equity |
| RiskSizing.ApprovedExactly | backend/src/lumine/trade_core/risk_validator.py:85-120 | no violation exactly when equity is positive, the kill switch off and every limit kept |
| RiskSizing.ViolationsExactly | backend/src/lumine/trade_core/risk_validator.py:85-117 | every broken rule is listed with its figure and no other, each once, in the order of the checks |
| RiskSizing.LimitsHoldOverEveryRun | backend/src/lumine/trade_core/risk_validator.py:87-117 | total, correlated and strategy exposure and position count stay inside the limits over any sequence of proposals |
| RiskSizing.BookedExactly | backend/src/lumine/trade_core/risk_validator.py:87-117 | an approved proposal adds its notional to the total, the correlated total and its strategy and one to the positions |
| RiskSizing.StaleTotalExactly | backend/src/lumine/trade_core/risk_validator.py:87-107 | every batch of k proposals of a desk approved on one snapshot keeps the total limit exactly when k times the cap of each of its strategies fits into the room |
| RiskSizing.StaleCorrelatedExactly | backend/src/lumine/trade_core/risk_validator.py:93-109 | the same for the correlated limit with the correlated caps |
| RiskSizing.StaleStrategyExactly | backend/src/lumine/trade_core/risk_validator.py:114-117 | the same for the strategy limit with the room of each strategy |
| RiskSizing.StalePositionsExactly | backend/src/lumine/trade_core/risk_validator.py:112-113 | the same for the position limit: exactly when k positions are free |
| RiskSizing.StaleTotalWithoutStrategies | backend/src/lumine/trade_core/risk_validator.py:87-107 | without a strategy limit: exactly when k times the smaller of one trade and the room fits into the room |
| RiskSizing.StaleSnapshotOvershoot | backend/src/lumine/trade_core/risk_validator.py:90-117 | k proposals assessed on one snapshot overshoot by at most k single trades |
| RiskSizing.StaleSnapshotBreaksTheLimit | backend/src/lumine/trade_core/risk_validator.py:32-41 | with the default limits three such proposals do break the total limit |
| RiskSizing.SizedExactly | backend/src/lumine/trade_core/sizing_calculator.py:40-136 | sizing succeeds exactly on well-formed figures |
| RiskSizing.SizingErrorExactly | backend/src/lumine/trade_core/sizing_calculator.py:40-136 | which figure a sizing is refused for, in the order of the checks |
| RiskSizing.SizeExactly | backend/src/lumine/trade_core/sizing_calculator.py:84-136 | the figures of a sized trade: base, volume in range, stop distance and stop |
| RiskSizing.BaseUsesTheBudget | backend/src/lumine/trade_core/sizing_calculator.py:40-72 | the base volume keeps the risk budget and one hundredth of a lot more would exceed it |
| RiskSizing.RoundDownIsLargest | backend/src/lumine/trade_core/sizing_calculator.py:72 | rounding down is the largest whole number of hundredths not above the volume |
| RiskSizing.RoundDownIsOdd | backend/src/lumine/trade_core/sizing_calculator.py:72 | rounding is toward zero |
| RiskSizing.ScaledVolumeIsBounded | backend/src/lumine/autogen_pipeline/risk_assessor.py:113-141 | a sized volume is in range and is the minimum or risks at most multiplier times the budget at its stop |
| RiskSizing.StopIsOnTheLosingSide | backend/src/lumine/trade_core/sizing_calculator.py:128-136 | the stop stands below a buy and above a sell, at the sized distance |
| RiskSizing.MultiplierComesFromPolicy | backend/src/lumine/autogen_pipeline/risk_assessor.py:39-59 | a multiplier other than one is a number the policy holds for that bucket and band |
| Collector.BucketsAreTheGroupBy | backend/src/lumine/data/collector.py:131-169 | buckets of an ordered series are its group-by: in order of time, each the first/max/min/last/sum of exactly its bars, and the bucket of every bar among them |
| Collector.GroupByIsUnique | backend/src/lumine/data/collector.py:131-169 | only one list of bars is that group-by |
| Collector.FloorExactly | backend/src/lumine/data/collector.py:81-85 | a bucket starts at the last multiple of the frame not after the whole second, which is cut off toward zero |
| Collector.BucketsConserveVolume | backend/src/lumine/data/collector.py:200-241 | bucketing loses and doubles no volume |
| Collector.ResamplingComposes | backend/src/lumine/data/collector.py:200-241 | resampling to a frame and then to its multiple is resampling to the multiple at once, incomplete buckets included |
| Collector.ResamplingConservesVolume | backend/src/lumine/data/collector.py:200-241 | published volume is the volume of the bars in complete buckets |
| Collector.ResampleBarsUntil | backend/src/lumine/data/collector.py:200-241 | the result is in order of time, each bar the first/max/min/last/sum of exactly the bars of one bucket that starts before the bucket of the clock, under the first symbol and the given source, and no such bucket is missing; it is the specified resampling |
| Collector.ResampledExactly | backend/src/lumine/data/collector.py:200-241 | the specified resampling has these properties |
| Collector.StreamingEqualsBatch | backend/src/lumine/data/collector.py:91-169 | emitted bars followed by the running one are the buckets of the whole tick series |
| Collector.StreamIsOrderedAndConserves | backend/src/lumine/data/collector.py:91-169 | streamed bars are strictly ordered and no volume is lost |
| Collector.RollingUpTheStream | backend/src/lumine/data/collector.py:91-241 | resampling the emitted bars equals resampling the ticks exactly when the clock is still in the newest bucket or the running bar changes nothing there; a late clock loses exactly its volume |
| Collector.LateClockInputs | backend/src/lumine/data/collector.py:91-241 | two ticks for which a late clock misses a traded minute, and two for which it misses nothing |
| Collector.Aggregator.IngestTick | backend/src/lumine/data/collector.py:91-128 | a first tick seeds the bucket, a further one moves close, volume and an exceeded extreme, one of another bucket emits the old figures under its symbol and seeds the next |
| Collector.IngestExactly | backend/src/lumine/data/collector.py:91-169 | the specified step has these three cases, with the bucket start written out |
| EventStream.ChunkingInvariance | frontend/src/hooks/useSSE.ts:203-297 | any cutting gives the same actions, partial event and stopping point; the leftover is the same exactly when the unread text is empty or ends, behind a line feed, like the read text |
| EventStream.LeftoverAfterStopDepends | frontend/src/hooks/useSSE.ts:207-211 | an input for which the leftover differs |
| EventStream.PrintedEventIsRead | frontend/src/hooks/useSSE.ts:210-297 | a printed event is read back: id, type and data lines |
| EventStream.GatherIsJoinExactly | frontend/src/hooks/useSSE.ts:289-296 | the data are the joined lines exactly unless the first of several is empty |
| EventStream.GatherInput | frontend/src/hooks/useSSE.ts:289-296 | a leading empty line that is lost |
| EventStream.FeedIsSteps | frontend/src/hooks/useSSE.ts:206-211 | one chunk has the effect of its characters one by one |
| EventStream.Reader.ReadChunk | frontend/src/hooks/useSSE.ts:203-297 | the loop body over its local variables computes the specified feed, and has the effect of the chunk's characters one by one |
| EventStream.LineExactly | frontend/src/hooks/useSSE.ts:210-297 | one line without one carriage return at its end: a comment, the end of an event, a trimmed id, type or data line, or nothing |
| EventStream.DispatchExactly | frontend/src/hooks/useSSE.ts:219-286 | what the end of an event does: nothing without type and data, the four lifecycle types, the verdict on the data otherwise, the four fatal codes, and the id that is remembered |
| EventStream.TrimExactly | frontend/src/hooks/useSSE.ts:289-296 | trimming removes white space at both ends and nothing else |
| EventStream.SpacesExactly | frontend/src/hooks/useSSE.ts:289-296 | which characters count as white space, by code point |
| Csv.ToCsv | frontend/src/lib/csv.ts:7-20 | the loop builds the header line and one line per row, nothing for no rows |
| Csv.CsvRoundTrip | frontend/src/lib/csv.ts:7-20 | the text reads back under RFC 4180 quoting as exactly the header and cell texts, precisely when there is a column |
| Csv.TakesField | frontend/src/lib/csv.ts:10-14 | a printed cell is read back as its text, whatever it contains |
| Csv.QuotedExactly | frontend/src/lib/csv.ts:10-14 | a cell is quoted exactly when it holds a quote, a comma or a line feed, and stands as it is otherwise |
| Csv.TableExactly | frontend/src/lib/csv.ts:9-19 | the header names the first row's properties, and under each stands the row's first property of that name, nothing for an absent or empty one |
| Backtest.Sma | backend/src/lumine/backtest/engine.py:56-65 | the sliding window yields the mean of the last values at every index, none before |
| Backtest.RunBacktest | backend/src/lumine/backtest/engine.py:68-121 | every trade opens at the first admissible bar and exits at the first later bar where stop or opposite side holds, in sums of closes and volumes written out, with its return on the entry price; the curve starts at 100000 and keeps its proportion to the close; the story is that of the coded rules |
| Backtest.StoryExactly | backend/src/lumine/backtest/engine.py:83-114 | the coded rules in these terms: twenty times close or volume against the sum, the stop fraction of the entry price, and the open position at the end |
| Backtest.CurveExactly | backend/src/lumine/backtest/engine.py:77-119 | the curve in these terms |
| Backtest.TradesAreComplete | backend/src/lumine/backtest/engine.py:83-114 | no other list of trades follows the rules beyond this one |
| Backtest.TradesAreDisjoint | backend/src/lumine/backtest/engine.py:83-114 | trades are disjoint and in order |
| Backtest.RunsAgreeExactly | backend/src/lumine/backtest/engine.py:83-114 | the runs under the coded and the described rules, trades and open position, are the same exactly when the entry rules agree at every bar at which the book is flat |
| Backtest.EntryIsDescribedExactly | backend/src/lumine/backtest/engine.py:7-10 | against the description, an entry is a cross above the rolling volume exactly when the bar before was not on its side and the volume exceeds the rolling average |
| Backtest.EntryRulesAgreeExactly | backend/src/lumine/backtest/engine.py:83-97 | coded and described entry rule agree at a bar exactly when the close is on the mean or their remaining conditions agree |
| Backtest.VolumeAveragesAgreeExactly | backend/src/lumine/backtest/engine.py:74-86 | the average of the first twenty volumes is the rolling one exactly when the volumes since weigh what has dropped out |
| Backtest.ExitIsACross | backend/src/lumine/backtest/engine.py:98-114 | a trade that closes without its stop closes on a cross, as described |
| Backtest.StayingAboveIsEntered | backend/src/lumine/backtest/engine.py:83-97 | a market in which the engine enters without a cross, and the two runs differ |
| Backtest.LoudStartIsMissed | backend/src/lumine/backtest/engine.py:74-97 | a market in which the engine misses a described entry |
| Backtest.MaxDrawdown | backend/src/lumine/backtest/engine.py:124-135 | the running-peak drawdown is the least relative change over all pairs of points in time order |
| Backtest.Evaluate | backend/src/lumine/backtest/engine.py:119-135 | the reported drawdown is the worst fall of the price itself between any two bars of the run |
| Fallback.RunChain | backend/src/lumine/llm_gateway/fallback.py:121-162 | the trace holds exactly the calls whose earlier routes failed, retries after timeouts and rate limits without an authentication code included, in order; the last one decides between answer, crash and the two chain errors |
| Fallback.RunExactly | backend/src/lumine/llm_gateway/fallback.py:30-162 | the specified run is this one, with the markers written out in any case of letters |
| Fallback.TryRoute | backend/src/lumine/llm_gateway/fallback.py:133-154 | a route is called a second time exactly after a transient first failure |
| Fallback.TraceMembers | backend/src/lumine/llm_gateway/fallback.py:128-154 | a call is made exactly when every earlier route failed and, for a retry, the first attempt was transient |
| Fallback.TraceOrder | backend/src/lumine/llm_gateway/fallback.py:128-154 | calls are in order, none twice, at most two a route |
| Fallback.RunOutcome | backend/src/lumine/llm_gateway/fallback.py:128-162 | the result is what the last call says, all calls before it having failed |
| Fallback.ErrorMeansAllFailed | backend/src/lumine/llm_gateway/fallback.py:155-162 | a chain error is raised exactly when every call failed, and then every route was called |
| Fallback.GapErrorExactly | backend/src/lumine/llm_gateway/fallback.py:97-99 | against the description, the no-fallbacks error is raised only without hops and only when the last failure is not transient |
| Fallback.GapInput | backend/src/lumine/llm_gateway/fallback.py:155-162 | a lone primary that times out twice is exhausted, one that is refused is a gap |
| Fallback.AuthNeverRetries | backend/src/lumine/llm_gateway/fallback.py:78-85 | an authentication code anywhere in a message rules out the retry |
| Fallback.Complete | backend/src/lumine/llm_gateway/gateway.py:128-183 | a blocked budget makes no call; otherwise the chain runs and an answer is booked under hop count, model and version of the first route that bears its model, the primary where none does |
| Fallback.RecordIsConsistent | backend/src/lumine/llm_gateway/gateway.py:217-240 | hop count and attributed route always name the same place in the chain |
| Fallback.PlaceExactly | backend/src/lumine/llm_gateway/gateway.py:217-240 | the recorded place is the first route that bears the model's name, and the primary where none does |
| Fallback.HopRecordedExactly | backend/src/lumine/llm_gateway/gateway.py:229-240 | hop k is recorded exactly when the answer names its model and no earlier route does |
| Fallback.RecordNamesTheAnswer | backend/src/lumine/llm_gateway/gateway.py:217-240 | with distinct echoed models the record names the route whose call was answered |
| Fallback.SharedModelMisbooks | backend/src/lumine/llm_gateway/gateway.py:229-240 | an answer of a later route on a shared model is booked to an earlier one |
| Rollups.BuildRollups | backend/src/lumine/trade_core/tca_quality.py:100-130 | one rollup per key that occurs, in key order, each summing up exactly its group; `Rollups.FiguresExactly` and `Rollups.RollupsExactly` say what that is |
| Rollups.FiguresExactly | backend/src/lumine/trade_core/tca_quality.py:85-130 | of a key's rows in any order and their slippages in ascending order: the count, the mean, the total cost, the middle or half the sum of the two middle slippages, and the one 19 (n - 1) / 20 steps from the first, interpolated in twentieths |
| Rollups.RollupsExactly | backend/src/lumine/trade_core/tca_quality.py:102-130 | there is one rollup for each dimension, value and day that some row has, alphabetically by dimension and value, then by day |
| Rollups.FiguresInput | backend/src/lumine/trade_core/tca_quality.py:85-130 | two fills at 1 and 2 bps have 1.5 in the middle and 1.95 at the 95th percentile |
| Rollups.RollupsConserve | backend/src/lumine/trade_core/tca_quality.py:100-130 | in every dimension fill counts add up to the fills and costs to the total cost |
| Rollups.RollupsIgnoreOrder | backend/src/lumine/trade_core/tca_quality.py:100-130 | the rollups do not depend on the order of the observations |
| Rollups.RollupsAreBounded | backend/src/lumine/trade_core/tca_quality.py:85-127 | min <= p50 <= p95 <= max and min <= avg <= max, with min and max attained |
| Rollups.PercentilesGrow | backend/src/lumine/trade_core/tca_quality.py:85-97 | a higher percentile is never a smaller value |
| Rollups.ExtremePercentiles | backend/src/lumine/trade_core/tca_quality.py:85-97 | the percentiles at zero and one are the least and the greatest value |
| Rollups.DetectAlerts | backend/src/lumine/trade_core/tca_quality.py:133-174 | breaches row by row, then one page per strategy with more breaches than the limit, holding exactly its fills |
| Rollups.AlertsExactly | backend/src/lumine/trade_core/tca_quality.py:70-174 | a row raises an alert exactly when its slippage exceeds the policy's number for symbol and regime, else for the regime, else 10 for high_vol in any case and 5, and counts for its strategy alone |
| Rollups.PagesCountBreaches | backend/src/lumine/trade_core/tca_quality.py:159-173 | the fills of a page are exactly those of the breach alerts of its strategy |

## Left out

- Verifier.VerifyRows: does not model the defaults for missing row columns or the text order of clock and key; clocks are integers and keys strings.
- Anchoring.Coordinator.MaybeAnchorNow: takes the row count as a parameter, as its own interface does.
- Anchoring.AnchorsAreSafe: the write-once object is claimed for the directory sink only; the object-lock stub stores nothing by design.
- Anchoring.LocalWorm.Store: does not model a file torn by a crash between creation and writing.
- JsonText.CanonicalJsonDecidesContent: floats, UUIDs and timestamps enter as the texts Python gives them; lone surrogates cannot occur in the text type.
- Canonical.NormalFormDecidesEquality: does not model rounding to 28 digits in `normalize`.
- ExecutionRouter.Router.Dispatch: does not model a failing read of the marker, which raises before anything is done, or the broker's wire format.
- Orchestrator.DecisionOrchestrator.Execute: a stage is a step that ends well or not and leaves trace rows; prompts, schemas and debate triggers are inputs, and the proposal's action is one of the four documented ones.
- InterleavedCycles.WriteBeforeDispatch: interleaves whole transactions, as the database isolates them; the steps inside one lineage transaction are one move.
- AuditOfCycles.ReplayReportsRelinkedJournal: and its companion start from tables whose earlier rows still show the links they were hashed with; rows relinked before stay reported by the lemma on any backfills.
- Orchestrator.DecisionOrchestrator.RunAnalysts: the four run as one step, since their trace rows are separate transactions whose order nothing observes.
- RiskSizing.AssessProposal: keeps ratios as numbers instead of formatted text.
- EventStream.Reader.ReadChunk: does not model byte decoding, timers, reconnecting or callbacks that throw.
- EventStream.PrintedEventIsRead: holds for trimmed lines without line ends, as the printer's callers produce.
- Csv.ToCsv: cells are their texts; `String(value)` and the CRLF and BOM of the download are not modelled.
- Collector.ResampleBarsUntil: the clock is a parameter; the default source and the variant without a cutoff are not modelled.
- Backtest.RunBacktest: demo bars are replaced by any positive closes; win rate, Sharpe figure and quantisation are not modelled.
- Fallback.Complete: the usage row is always written, as with a session; prices and token counts are not modelled.
- Fallback.RunChain: errors other than client errors pass through, as they do in the code.
- RiskSizing.StaleTotalExactly: and its companions start from a snapshot inside its limits with equity and a free position; without those two nothing is approved, and a book outside its limits is so before any approval.
- Rollups.BuildRollups: percentile positions are exact instead of floats.
- `verify_worm_payload` compares parsed JSON with an expected value and would add an easy member.
- The older gateway, background workers, pages, stores and migrations are not modelled.
