# Verified model of the agentic harness and its test-intelligence adapters

A Dafny 4.11 model of eight components, with proofs of what they are for:

- **The temporal-logic model checker** (`Syntax`, `Expressions`, `StateIds`, `StateSpace`, `Kripke`, `ModelChecker`,
  `LtlTranslation`, `Counterexample`, `Grammar`, `TokenCursor`, `Reading`, `RoundTrip`): expression evaluation, breadth-first
  construction of the reachable states, CTL checking by fixed points, LTL by translation, counterexamples, and the
  recursive-descent parser with its printer. A verdict is proved to be the one of the infinite-path semantics. What the
  parts mean is said without naming them in `EvaluationLaws`, `SpecLaws`, `VerdictLaws`, `Precedence`,
  `ExpressionPrecedence` and `ReadingLaws`, and the shipped specification of payments is taken through all of them in
  `Psd2Spec`, `Psd2Verdict` and `Psd2Text`: its three formulas are parsed as written and pass.
- **The checkpoint chain** (`CheckpointChain`, `CheckpointLaws`): tamper evidence and the run tree inside an accepted chain.
- **The consolidation lock** (`ConsolidationLock`, `LockLaws`, `LockRace`, `RaceLaws`): whole calls over a lock file with
  an event log, and the first-acquire race at the level of single file operations.
- **Lesson files** (`LessonScalars`, `LessonLines`, `LessonFile`, with `ScalarLaws`, `BlockLaws`, `LessonLaws`): the
  hand-rolled frontmatter emitter and parser.
- **The customer bundle** (`Crc32`, `ZipArchive`, `MarkdownBundle`, `BundleLaws`): the CRC table loop and the ZIP
  encoder, against a bit-at-a-time CRC and a reader of sections 4.3.7, 4.3.12 and 4.3.16 of PKWARE APPNOTE.
- **The case merger** (`CaseMerger`, `MergeLaws`, on `Ordering`): the two-pass merge and its report.
- **The Jira writer** (`JiraWrite`, `JiraLaws`): gates, lookup before create, retries, over a network that loses messages.
- **The snapshot store** (`SnapshotLru`): the bounded store against an unbounded log, and one-shot suppressions.

Loops and objects of the program are methods and classes here, each proved equal to a function or relation about
which the properties are shown. The modules named `..Laws` say what those functions mean in terms of positions, literal
values and outcomes, never by the functions' own branches. Digests are functions of the hashed record, assumed without
collisions only where a lemma says so (`Ideal`, `Injective`). Some functions of the model take another function of it as an argument
(`idOf`, `sign`, `feed`, `header` and the like); the comment at the declaration says which one it is.

Where the code does less than its comments say, the model follows the code and a lemma names the input:
`!G p` and `F G p` for the LTL translation, a single-state trace for a failing `AG` of a temporal formula or of
`p -> AF q`, `a + b = c` for the printer, `missing_root` for the checkpoint verifier, a rollback after a release and an acquire
with invalid holder data for the lock, an id of digits for lessons, the order of duplicate cases for the merger,
and bars in job or test case ids for the Jira external id.

Where the behaviour has an exact condition it is stated as an equivalence: for the printer (`RoundTrips`), for traces
that are witnesses (`WitnessIff`), for rollbacks (`RollbackMovesCursorIff`), for invalid lock calls
(`ConsistentIffValid`), for lessons (`ReadBackWhatWasWritten`) and for the merger's orders.

## Model

| member | source | states |
|---|---|---|
| `Kripke.EUntilIsClosed` | packages/agentic-harness/src/formal-verification.ts:1755-1771 | `E[p U q]` under infinite-path semantics holds in every `q` state and is inherited backwards along steps from `p` states |
| `Kripke.EUntilIsLeast` | packages/agentic-harness/src/formal-verification.ts:1703-1718 | `E[p U q]` is the least set with that property, which is what a backward worklist computes |
| `Kripke.EGloballyIsConsistent` | packages/agentic-harness/src/formal-verification.ts:1727-1746 | every `EG p` state satisfies `p` and has a successor that again satisfies `EG p` |
| `Kripke.EGloballyIsGreatest` | packages/agentic-harness/src/formal-verification.ts:1727-1746 | `EG p` is the greatest set of `p` states each with a successor in the set: from any such set an infinite `p` path can be built |
| `Kripke.EFinallyIsEUntil` | packages/agentic-harness/src/formal-verification.ts:1703-1718 | `EF p` is `E[true U p]` |
| `Kripke.AFinallyDual` | packages/agentic-harness/src/formal-verification.ts:1719-1726 | in a total structure `AF p` is the complement of `EG !p` |
| `Kripke.AGloballyDual` | packages/agentic-harness/src/formal-verification.ts:1747-1754 | `AG p` is the complement of `EF !p` |
| `Kripke.UntilFails` | packages/agentic-harness/src/formal-verification.ts:1772-1785 | on one infinite path `p U q` fails exactly if `!q` holds forever or up to a state where both fail |
| `Kripke.AUntilDual` | packages/agentic-harness/src/formal-verification.ts:1772-1785 | `A[p U q]` is the complement of `E[!q U (!p & !q)]` and `EG !q` together |
| `ModelChecker.CheckCtl` | packages/agentic-harness/src/formal-verification.ts:1633-1796 | for every finite total structure and formula: fails exactly for LTL operators and atoms without a truth value, otherwise returns exactly the states of the infinite-path semantics; terminates although AF, AG and AU recurse on larger formulas |
| `ModelChecker.CheckPrefix` | packages/agentic-harness/src/formal-verification.ts:1685-1754 | for one-place temporal operators, the dual forms of AF and AG included, returns exactly the states of the path semantics or fails exactly if undecidable |
| `ModelChecker.CheckAUntil` | packages/agentic-harness/src/formal-verification.ts:1772-1785 | for AU, through its two negated subformulas, returns exactly the states of the path semantics or fails exactly if undecidable |
| `ModelChecker.CheckEUntil` | packages/agentic-harness/src/formal-verification.ts:1703-1718 | the backward worklist returns exactly `E[p U q]` |
| `ModelChecker.CheckEGlobally` | packages/agentic-harness/src/formal-verification.ts:1727-1746 | the shrinking loop returns exactly `EG p` and terminates |
| `ModelChecker.CheckNext` | packages/agentic-harness/src/formal-verification.ts:1685-1702 | EX keeps exactly the states with some successor in the set, AX those with every successor in it |
| `ModelChecker.CheckBin` | packages/agentic-harness/src/formal-verification.ts:1655-1684 | a Boolean connective gives exactly the states of its meaning, or fails exactly if a side is undecidable |
| `ModelChecker.CheckAtom` | packages/agentic-harness/src/formal-verification.ts:1594-1605 | exactly the states where the atom has the value true, as `EvaluationLaws.Atoms` and the laws of the operators say what its value is; a failure if it has no truth value somewhere |
| `ModelChecker.Predecessors` | packages/agentic-harness/src/formal-verification.ts:1610-1631 | the predecessor map lists exactly the states with a transition into each state |
| `LtlTranslation.TranslationIsCtl` | packages/agentic-harness/src/formal-verification.ts:1545-1588 | the translation contains no LTL operator |
| `LtlTranslation.TranslationSound` | packages/agentic-harness/src/formal-verification.ts:1545-1588 | with negation, left sides of `->` and `<->` on propositional parts only: where the translation holds, every infinite path satisfies the LTL formula |
| `LtlTranslation.TranslationExact` | packages/agentic-harness/src/formal-verification.ts:1545-1588 | on the deterministic fragment (propositional parts, `&`, `X`, `G`, `p -> f`, and `\|` and `U` whose sides are told apart by a propositional guard) the two are equivalent in every state of every total structure |
| `LtlTranslation.DocumentedPatternsAreExact` | packages/agentic-harness/src/formal-verification.ts:20-26 | all six documented patterns lie in that fragment |
| `LtlTranslation.SameTail` | packages/agentic-harness/src/formal-verification.ts:1545-1588 | LTL truth at a position depends only on the path from there on |
| `LtlTranslation.NegationIsUnsound` | packages/agentic-harness/src/formal-verification.ts:1549-1550 | without the restriction it fails: `!G p` is reported as holding in a state with a path that keeps `p` forever |
| `LtlTranslation.EventuallyAlwaysIsIncomplete` | packages/agentic-harness/src/formal-verification.ts:1560-1563 | `F G p` holds on every path of a structure, yet its translation fails there |
| `StateIds.StateIdInjective` | packages/agentic-harness/src/formal-verification.ts:1221-1227 | two valuations of the same variables with the same state id are equal, for all names and string values |
| `StateSpace.AdmitsMeaning` | packages/agentic-harness/src/formal-verification.ts:1355-1452 | with distinct variable names a valuation is a successor exactly if every variable takes one of its own choices, inside its domain |
| `StateSpace.Successors` | packages/agentic-harness/src/formal-verification.ts:1355-1452 | the enumeration loop returns exactly those valuations, and raises exactly if an evaluation fails |
| `StateSpace.LoopIfDead` | packages/agentic-harness/src/formal-verification.ts:1471-1531 | only a state without successors gets an added edge, to itself |
| `StateSpace.Search` | packages/agentic-harness/src/formal-verification.ts:1471-1531 | the breadth-first loop terminates with exactly the reachable valuations, or names why not |
| `StateSpace.BuildKripke` | packages/agentic-harness/src/formal-verification.ts:1471-1531 | succeeds only with a total structure of at most 4096 states representing exactly the reachable valuations; each kind of failure has its cause |
| `Counterexample.FindWitness` | packages/agentic-harness/src/formal-verification.ts:1802-1852 | breadth-first search returns a real walk, shortest among those to a refuting state, and just the start if there is none |
| `Counterexample.PathTo` | packages/agentic-harness/src/formal-verification.ts:1832-1848 | following parents gives a walk from the root whose length is the search depth |
| `Counterexample.FindCounterexample` | packages/agentic-harness/src/formal-verification.ts:1802-1852 | a trace exactly if some initial state fails, starting at the first failing one |
| `Counterexample.FailingInvariantTrace` | packages/agentic-harness/src/formal-verification.ts:1867-1873 | for a failing `AG` of a propositional formula: starts in a failing initial state, every step is a transition, ends in a violation, and no shorter walk from there does |
| `Counterexample.LongTraceViolates` | packages/agentic-harness/src/formal-verification.ts:1867-1873 | whatever the operand, a trace of two or more states ends in a violation |
| `Counterexample.WitnessIff` | packages/agentic-harness/src/formal-verification.ts:1854-1883 | whatever the operand: the trace of a failing `AG` ends in a violation exactly if its first state violates the operand or propositional evaluation refutes the operand in some reachable state |
| `Counterexample.UnrefutableOperandTrace` | packages/agentic-harness/src/formal-verification.ts:1854-1920 | an operand that propositional evaluation cannot refute always gets a single-state trace, a witness exactly if that state violates the operand |
| `Counterexample.ResponseIsUnrefutable` | packages/agentic-harness/src/formal-verification.ts:20-26 | the documented response pattern `G(p -> F q)` translates to such an operand, for every `p` and `q` |
| `Counterexample.ResponseWithoutWitness` | packages/agentic-harness/src/formal-verification.ts:1867-1873 | for `G(p -> F !p)` there is a structure where the only trace is a state that satisfies the operand |
| `Counterexample.ResponseFails` | packages/agentic-harness/src/formal-verification.ts:1867-1873 | and the formula does fail there |
| `Counterexample.ImplicationTraceViolates` | packages/agentic-harness/src/formal-verification.ts:1874-1883 | the trace of a failing implication always ends in a state that violates the implication |
| `Counterexample.TemporalOperandTrace` | packages/agentic-harness/src/formal-verification.ts:1916-1920 | for a temporal operand the trace is always the single initial state |
| `Counterexample.TraceWithoutWitness` | packages/agentic-harness/src/formal-verification.ts:1867-1873 | for `AG EX p` there is a structure where the only trace ends in a state that does satisfy the operand |
| `Counterexample.AtomCoreAgrees` | packages/agentic-harness/src/formal-verification.ts:1887-1920 | propositional evaluation agrees with the checker's semantics whenever it succeeds |
| `Counterexample.CheckOne` | packages/agentic-harness/src/formal-verification.ts:1964-2000 | a formula passes exactly if all initial states satisfy it |
| `Counterexample.LtlVerdictMeans` | packages/agentic-harness/src/formal-verification.ts:1957-2021 | the verdict on an LTL formula: a pass means it holds on every path from every initial state, on the sound fragment; on the deterministic one it passes exactly then |
| `Counterexample.VerifySpec` | packages/agentic-harness/src/formal-verification.ts:1957-2021 | verdicts, counterexamples and overall verdict are those of the spec's reachable valuations, which `SpecLaws.StepsMean`, `SpecLaws.StartsMean` and `VerdictLaws.StatesEndRuns` describe; every failure has its cause in the spec |
| `TokenCursor.Cursor.Temporal` | packages/agentic-harness/src/formal-verification.ts:1008-1013 | the recursive-descent method reads exactly what the grammar function says, advancing the cursor to its end |
| `TokenCursor.Cursor.TemporalLevel` | packages/agentic-harness/src/formal-verification.ts:1014-1069 | the method reads what the grammar function says at each of the four levels; which connective binds tighter and where chains lean is `Precedence.ConnectivesInOrder` |
| `TokenCursor.Cursor.UntilFormula` | packages/agentic-harness/src/formal-verification.ts:1070-1087 | `U` in LTL only |
| `TokenCursor.Cursor.Unary` | packages/agentic-harness/src/formal-verification.ts:1088-1135 | `!`, one-place operators and bracketed until forms |
| `TokenCursor.Cursor.AtomFormula` | packages/agentic-harness/src/formal-verification.ts:1136-1153 | a parenthesised group or a relation |
| `TokenCursor.Cursor.Expr` | packages/agentic-harness/src/formal-verification.ts:827-830 | reads an expression exactly as the grammar function says |
| `TokenCursor.Cursor.ExprLevel` | packages/agentic-harness/src/formal-verification.ts:831-870 | the method reads what the grammar function says at each level; order and direction are `ExpressionPrecedence.ConnectivesInOrder` |
| `TokenCursor.Cursor.Relation` | packages/agentic-harness/src/formal-verification.ts:882-925 | comparisons and membership |
| `TokenCursor.Cursor.Additive` | packages/agentic-harness/src/formal-verification.ts:926-938 | left-associative sums |
| `TokenCursor.Cursor.Primary` | packages/agentic-harness/src/formal-verification.ts:939-1006 | names, literals, sets, case expressions and groups |
| `RoundTrip.PrintThenParse` | packages/agentic-harness/src/formal-verification.ts:1155-1209 | for every formula: what re-parsing its printed form yields, or that it fails |
| `RoundTrip.RoundTrips` | packages/agentic-harness/src/formal-verification.ts:1155-1209 | printing and re-parsing gives the same tree exactly for the printable formulas |
| `RoundTrip.AcceptedButNotReprintable` | packages/agentic-harness/src/formal-verification.ts:882-938 | the parser accepts `a + b = c`, whose printed form it rejects |
| `CheckpointChain.Inspect` | packages/agentic-harness/src/agent-harness-checkpoint.ts:676-806 | the checks on one checkpoint, in the source's order |
| `CheckpointChain.VerifyChain` | packages/agentic-harness/src/agent-harness-checkpoint.ts:656-809 | the loop reports exactly the first break of the chain |
| `CheckpointChain.AcceptedIsLinked` | packages/agentic-harness/src/agent-harness-checkpoint.ts:656-809 | accepted exactly if every checkpoint is valid, numbered by position, linked by hash and obeys the run rule |
| `CheckpointChain.MissingRootNeverReported` | packages/agentic-harness/src/agent-harness-checkpoint.ts:714-741 | the reason `missing_root` is never reported, because the structural check comes first |
| `CheckpointChain.RulesOfStandard` | packages/agentic-harness/src/agent-harness-checkpoint.ts:218-330 | the structural check forces sentinel and missing parent at the root and sorted unique next steps, whatever the field patterns |
| `CheckpointChain.SameHeadSameChain` | packages/agentic-harness/src/agent-harness-checkpoint.ts:378-380 | under an ideal hash two accepted chains of any lengths with the same head hash are identical |
| `CheckpointChain.ReplacementDetected` | packages/agentic-harness/src/agent-harness-checkpoint.ts:656-809 | replacing a checkpoint that is not the last is always rejected, at its index or the next one, a repeated index being reported as the smaller one |
| `CheckpointChain.RunsAgreeOnParent` | packages/agentic-harness/src/agent-harness-checkpoint.ts:751-799 | all checkpoints of a run declare the same parent |
| `CheckpointChain.RunsFormATree` | packages/agentic-harness/src/agent-harness-checkpoint.ts:751-799 | the run ids form one tree rooted at the first run; following parents always reaches the root |
| `CheckpointChain.AppendedIsAccepted` | packages/agentic-harness/src/agent-harness-checkpoint.ts:410-459 | a chain built by appending from nothing is accepted exactly if its parent run ids obey the rule, with the hash of its last checkpoint as head |
| `CheckpointChain.AppendReproduces` | packages/agentic-harness/src/agent-harness-checkpoint.ts:410-459 | appending a checkpoint's own fields to its predecessor gives that checkpoint |
| `CheckpointChain.AcceptedIsAppended` | packages/agentic-harness/src/agent-harness-checkpoint.ts:410-459 | every accepted chain of one job is what appending its own fields rebuilds |
| `ConsolidationLock.VerifyEventChain` | packages/agentic-harness/src/lessons-consolidation-lock.ts:370-449 | accepts exactly the valid, numbered and linked logs, else diagnoses the first event that does not fit |
| `ConsolidationLock.AppendKeepsChain` | packages/agentic-harness/src/lessons-consolidation-lock.ts:322-346 | an append succeeds exactly for a valid event and keeps the log intact |
| `ConsolidationLock.EveryRunIsConsistent` | packages/agentic-harness/src/lessons-consolidation-lock.ts:617-827 | after every run of valid calls the log verifies and replaying it gives exactly the lock file's content |
| `ConsolidationLock.CallKeepsConsistent` | packages/agentic-harness/src/lessons-consolidation-lock.ts:617-827 | one valid call keeps log and lock file consistent and never raises |
| `ConsolidationLock.ConsistentIffValid` | packages/agentic-harness/src/lessons-consolidation-lock.ts:670-720 | for every call on every consistent directory: log and lock file stay consistent exactly if the call's data are valid, or it has no effect, or it leaves the body as it is (a rollback of a released lock); the file is written before the event is checked |
| `ConsolidationLock.InvalidAcquire` | packages/agentic-harness/src/lessons-consolidation-lock.ts:617-735 | after an acquire with invalid data every later call raises |
| `ConsolidationLock.HeldIffLastAcquired` | packages/agentic-harness/src/lessons-consolidation-lock.ts:617-827 | the lock is held by h exactly if the last event is an acquire by h |
| `ConsolidationLock.TakeoverIsFramed` | packages/agentic-harness/src/lessons-consolidation-lock.ts:688-720 | every takeover directly follows the acquire of the holder it names and is directly followed by its taker's acquire |
| `ConsolidationLock.RefusedChangesNothing` | packages/agentic-harness/src/lessons-consolidation-lock.ts:679-686 | refused and declined calls change nothing |
| `ConsolidationLock.DisplacedHolderIsPowerless` | packages/agentic-harness/src/lessons-consolidation-lock.ts:760-827 | after a takeover that displaced a holder, with no acquire by that id since, its releases and rollbacks are declined without effect, whatever happened in between |
| `ConsolidationLock.HolderMadeLastAcquire` | packages/agentic-harness/src/lessons-consolidation-lock.ts:617-827 | whoever the log says holds or last held the lock made the last acquire in it |
| `ConsolidationLock.RollbackMovesCursorIff` | packages/agentic-harness/src/lessons-consolidation-lock.ts:797-827 | for every rollback on every consistent directory: declined exactly without a lock file or with another holder's id, held or not; the mtime stays exactly if the id differs or the given value is the present mtime |
| `ConsolidationLock.FirstRollbackZeroesCursor` | packages/agentic-harness/src/lessons-consolidation-lock.ts:645-668 | a first acquire reports 0 as the earlier cursor, so rolling it back sets the cursor to 0 |
| `ConsolidationLock.RollbackRestoresCursor` | packages/agentic-harness/src/lessons-consolidation-lock.ts:797-827 | acquiring an existing lock and rolling back restores the mtime cursor |
| `ConsolidationLock.RollbackAfterReleaseRewinds` | packages/agentic-harness/src/lessons-consolidation-lock.ts:797-827 | so a rollback after a successful release is not declined and moves the cursor back |
| `ConsolidationLock.LockDirectory.TryAcquire` | packages/agentic-harness/src/lessons-consolidation-lock.ts:617-735 | the acquire as it changes lock file and log; when it refuses, gives or takes over is `LockLaws.HeldIsRefusedIff`, `FreeIsGiven` and `HeldIsTakenOver` |
| `ConsolidationLock.LockDirectory.Release` | packages/agentic-harness/src/lessons-consolidation-lock.ts:760-789 | the release as it changes lock file and log |
| `ConsolidationLock.LockDirectory.Rollback` | packages/agentic-harness/src/lessons-consolidation-lock.ts:797-827 | the rollback as it changes lock file and log |
| `ConsolidationLock.LockDirectory.AppendLockEvent` | packages/agentic-harness/src/lessons-consolidation-lock.ts:322-346 | appends one stamped event or changes nothing |
| `LockRace.MutualExclusion` | packages/agentic-harness/src/lessons-consolidation-lock.ts:566-600 | for any number of contenders and every interleaving of single file operations: at most one acquire succeeds, nobody retries twice, raises or takes over, and the lock's name shows nothing or a complete body |
| `LockRace.FinishedRaceHasOneWinner` | packages/agentic-harness/src/lessons-consolidation-lock.ts:645-662 | when all are finished exactly one has won, its body is the lock, its event is the whole log and no temporary file is left |
| `LockRace.SomeStateAfter` | packages/agentic-harness/src/lessons-consolidation-lock.ts:617-735 | every interleaving leads to some state, so the two statements above are not empty |
| `LockRace.WaitFree` | packages/agentic-harness/src/lessons-consolidation-lock.ts:670-687 | a contender finishes after a bounded number of its own steps, whatever the others do |
| `LessonScalars.DecodeUndoesEscape` | packages/agentic-harness/src/agent-lessons-memdir.ts:312-326 | decoding undoes escaping for every text |
| `LessonScalars.TextRoundTrip` | packages/agentic-harness/src/agent-lessons-memdir.ts:330-375 | a text is read back as itself exactly if it does not look like a truth value or a finite unsigned number, and never as another text |
| `LessonScalars.NumberRoundTrip` | packages/agentic-harness/src/agent-lessons-memdir.ts:339-352 | a number is read back exactly if it is printed without an exponent |
| `LessonScalars.EncodedIsWritten` | packages/agentic-harness/src/agent-lessons-memdir.ts:350-375 | written text is one line, not empty and not surrounded by white space |
| `LessonLines.WalkLines` | packages/agentic-harness/src/agent-lessons-memdir.ts:406-487 | the nested loops compute the block the grammar of lines prescribes, with the same faults in the same order |
| `LessonLines.ParseBlock` | packages/agentic-harness/src/agent-lessons-memdir.ts:388-487 | parsing a text rejects carriage returns first and then reads its lines as above |
| `LessonLines.SplitUnlines` | packages/agentic-harness/src/agent-lessons-memdir.ts:388-398 | splitting text undoes ending each line with a line feed |
| `LessonFile.BlockReads` | packages/agentic-harness/src/agent-lessons-memdir.ts:406-487 | the block of a written frontmatter is read as its fields, with the body starting right behind it |
| `LessonFile.ReadBackWhatWasWritten` | packages/agentic-harness/src/agent-lessons-memdir.ts:1126-1157 | a written lesson reads back with every field and its body exactly if no scalar is misread and the body has no carriage return; otherwise reading fails, it never gives anything else |
| `LessonFile.AcceptedButUnreadable` | packages/agentic-harness/src/agent-lessons-memdir.ts:162-164 | a lesson whose id is 123 is accepted when writing, and reading its text fails, whatever the other fields and the body are |
| `LessonFile.SerializeFrontmatter` | packages/agentic-harness/src/agent-lessons-memdir.ts:575-619 | emits the fields in fixed order between fences, or raises for a broken invariant |
| `LessonFile.ComposeLesson` | packages/agentic-harness/src/agent-lessons-memdir.ts:1124-1128 | the text that a write puts into the file |
| `LessonFile.ReadLesson` | packages/agentic-harness/src/agent-lessons-memdir.ts:1146-1157 | reading a lesson parses block and fields, then joins the remaining lines to the body |
| `Crc32.ComputeCrc32` | src/test-intelligence/customer-markdown-zip.ts:93-102 | the table-driven loop equals the bit-at-a-time reflected CRC with polynomial 0xEDB88320, for every byte sequence |
| `Crc32.BuildTable` | src/test-intelligence/customer-markdown-zip.ts:80-90 | entry i of the table is eight division steps from i |
| `Crc32.ByteThroughTable` | src/test-intelligence/customer-markdown-zip.ts:98-100 | feeding eight bits one by one is one look-up |
| `Crc32.EightStepsLookup` | src/test-intelligence/customer-markdown-zip.ts:98-100 | eight steps are a look-up of the low byte and a shift, from linearity alone |
| `Crc32.StepIsLinear` | src/test-intelligence/customer-markdown-zip.ts:84-86 | one division step is linear over exclusive or |
| `Crc32.ByteChangeIsDetected` | src/test-intelligence/customer-markdown-zip.ts:93-102 | changing one byte anywhere in a message changes its checksum |
| `ZipArchive.ReadBack` | src/test-intelligence/customer-markdown-zip.ts:109-130 | a reader that starts at the end record, walks the directory and follows every stored offset finds exactly the names, bodies and checksums, in order |
| `ZipArchive.EncodeLocalFileHeader` | src/test-intelligence/customer-markdown-zip.ts:171-187 | the buffer holds the local header and name, or the write raises exactly if a size does not fit |
| `ZipArchive.EncodeCentralDirectoryHeader` | src/test-intelligence/customer-markdown-zip.ts:189-214 | the buffer holds the directory header with the offset, and the name, or the write raises exactly if a value does not fit |
| `ZipArchive.EncodeEndOfCentralDirectory` | src/test-intelligence/customer-markdown-zip.ts:222-233 | the buffer holds the end record, or the write raises exactly if a count, size or offset does not fit |
| `ZipArchive.LocalFieldsRead` | src/test-intelligence/customer-markdown-zip.ts:171-187 | a reader of the local header finds signature, sizes and checksum in their places |
| `ZipArchive.CentralFieldsRead` | src/test-intelligence/customer-markdown-zip.ts:189-214 | a reader of the directory header finds signature, sizes, checksum and offset in their places |
| `ZipArchive.LocalAt` | src/test-intelligence/customer-markdown-zip.ts:113-122 | the accumulated offset is where each entry stands |
| `MarkdownBundle.Pack` | src/test-intelligence/customer-markdown-zip.ts:109-130 | produces the archive exactly if every count, size and offset fits its 16 or 32 bits |
| `MarkdownBundle.CollectEntries` | src/test-intelligence/customer-markdown-zip.ts:137-169 | collects, sorts and encodes the files with their checksums |
| `MarkdownBundle.NamesDistinctIff` | src/test-intelligence/customer-markdown-zip.ts:138-162 | all names in the archive differ exactly if the per-case names do |
| `MarkdownBundle.AnySortAgrees` | src/test-intelligence/customer-markdown-zip.ts:163 | with distinct names every correct sort gives the same order, although the comparator never reports a tie |
| `MarkdownBundle.BundleReadBack` | src/test-intelligence/customer-markdown-zip.ts:109-130 | a reader of a bundle's archive finds every file under its name with content and checksum, in sorted order |
| `MarkdownBundle.BuildCustomerMarkdownZipBundle` | src/test-intelligence/customer-markdown-zip.ts:109-169 | the encoder produces the archive of the collected entries exactly if everything fits |
| `CaseMerger.SameSignatureIff` | packages/agentic-harness/src/case-merger.ts:53-81 | signatures agree exactly on lowest screen, technique and covered fields and actions |
| `CaseMerger.IndexBySignature` | packages/agentic-harness/src/case-merger.ts:89-108 | the index holds the first case of every signature |
| `CaseMerger.Decide` | packages/agentic-harness/src/case-merger.ts:202-221 | pass B's case wins exactly if only pass A had to repair its own; the reason is a repair exactly if one side alone was repaired |
| `CaseMerger.SurvivorKeepsSignature` | packages/agentic-harness/src/case-merger.ts:285-331 | a merged case still has the signature it was merged under |
| `CaseMerger.OneCasePerSignature` | packages/agentic-harness/src/case-merger.ts:266-349 | exactly one surviving case per signature of either pass, none for any other |
| `CaseMerger.TotalsAreConserved` | packages/agentic-harness/src/case-merger.ts:356-377 | the three provenance counts are the sizes of the differences and the intersection and add up to the merged count; the conflict counters add up to the shared ones |
| `CaseMerger.FieldsAndActionsSurvive` | packages/agentic-harness/src/case-merger.ts:129-158 | no covered field or action is lost or made up, those of dropped duplicates included |
| `CaseMerger.SurvivorsCover` | packages/agentic-harness/src/case-merger.ts:129-158 | the ids of all four kinds that survive are exactly those of the first case of each signature; validations and navigations of a dropped duplicate are lost |
| `CaseMerger.LongerIff` | packages/agentic-harness/src/case-merger.ts:147-151 | growth is flagged exactly if a list gains more ids than it repeats |
| `CaseMerger.GrowthIsValidationOrNavigation` | packages/agentic-harness/src/case-merger.ts:147-151 | in a merge the flag can only come from validations or navigations |
| `CaseMerger.PermutingA` | packages/agentic-harness/src/case-merger.ts:251-387 | reordering pass A changes nothing if cases sharing a signature are interchangeable and all others survive under different ids |
| `CaseMerger.OrderOfAMatters` | packages/agentic-harness/src/case-merger.ts:251-387 | if pass A is not order-free, two of its orders give different results |
| `CaseMerger.PermutingB` | packages/agentic-harness/src/case-merger.ts:251-387 | reordering pass B changes nothing if cases sharing a signature are interchangeable and those without counterpart have different ids |
| `CaseMerger.OrderOfBMatters` | packages/agentic-harness/src/case-merger.ts:251-387 | if pass B is not order-free, two of its orders give different results |
| `CaseMerger.InputsAreOrderFree` | packages/agentic-harness/src/case-merger.ts:251-387 | without repeated signatures or shared ids both passes are order-free |
| `CaseMerger.PermutingBoth` | packages/agentic-harness/src/case-merger.ts:251-387 | so reordering both passes then changes nothing |
| `CaseMerger.DuplicatesDependOnOrder` | packages/agentic-harness/src/case-merger.ts:89-108 | two different cases with one signature in one pass give a result that depends on their order |
| `CaseMerger.OrderOfPassAShows` | packages/agentic-harness/src/case-merger.ts:89-108 | two such cases that differ in their ids only |
| `CaseMerger.Merge` | packages/agentic-harness/src/case-merger.ts:251-387 | the two walks and the separate sorts give the specified result, whose cases `MergeLaws.WinnerSurvives` and `SingleSurvives` identify: cases and report entries stay aligned and the report counts what the result contains |
| `CaseMerger.WalkA` | packages/agentic-harness/src/case-merger.ts:281-332 | the walk over pass A yields the survivors in order, which `MergeLaws` identifies, and counts the conflicts by how they were resolved |
| `CaseMerger.WalkB` | packages/agentic-harness/src/case-merger.ts:334-349 | the walk over pass B yields the first cases of signatures that pass A lacks |
| `Ordering.SortsAlikeIff` | packages/agentic-harness/src/case-merger.ts:351-354 | two lists sort to the same exactly if they have the same elements of every key in the same order |
| `JiraWrite.SameIdIff` | src/test-intelligence/jira-write-adapter.ts:602-609 | two external ids agree exactly if parent and joined text of job and test case do; within a job, if the cases do |
| `JiraWrite.IdDeterminesCase` | src/test-intelligence/jira-write-adapter.ts:596-609 | without bars in test case ids the id determines job, case and parent |
| `JiraWrite.BarsCollide` | src/test-intelligence/jira-write-adapter.ts:596-609 | with bars, cases of two jobs can share an id, against the comment in the source |
| `JiraWrite.SearchIsTruthful` | src/test-intelligence/jira-write-adapter.ts:335-416 | a retried lookup changes nothing and a listing is the truth |
| `JiraWrite.AttemptEffect` | src/test-intelligence/jira-write-adapter.ts:844-899 | an attempt creates at most one issue, and only if none was there |
| `JiraWrite.AtMostOnce` | src/test-intelligence/jira-write-adapter.ts:928-1025 | over any sequence of runs and any lost requests and responses no external id is given to two issues |
| `JiraWrite.SilentRuns` | src/test-intelligence/jira-write-adapter.ts:949-1016 | refused and dry runs make no request |
| `JiraWrite.RecordsAreTrue` | src/test-intelligence/jira-write-adapter.ts:792-839 | every reported issue exists in the tenant |
| `JiraWrite.RunInFairWeatherCompletes` | src/test-intelligence/jira-write-adapter.ts:928-1025 | whatever earlier runs left, one undisturbed run leaves exactly one issue per approved case |
| `JiraWrite.RepetitionAddsNothing` | src/test-intelligence/jira-write-adapter.ts:928-1025 | repeating such a run adds no issue, in any network conditions |
| `JiraWrite.RecordsAreSorted` | src/test-intelligence/jira-write-adapter.ts:1002-1027 | one record per approved case, already in order when they are sorted again |
| `JiraWrite.CollectGateRefusals` | src/test-intelligence/jira-write-adapter.ts:673-716 | exactly the codes of the closed gates; what closes each of them is `JiraLaws.OpenMeans`, `ReviewGateMeans`, `SwitchesHaveTheirGates` and `FindingsHaveTheirGates` |
| `JiraWrite.Tenant.SendJiraRequest` | src/test-intelligence/jira-write-adapter.ts:293-333 | the retry loop: repeated only for lookups and only after curable failures |
| `JiraWrite.Tenant.AttemptWrite` | src/test-intelligence/jira-write-adapter.ts:844-899 | lookup, then one create only if the lookup is sure of absence |
| `JiraWrite.Tenant.RunJiraSubtaskWrite` | src/test-intelligence/jira-write-adapter.ts:928-1040 | a run does to the tenant what the specification says, which writes for approved cases only (`JiraLaws.OnlyReviewedAreWritten`); its four outcome counts add up to the approved cases |
| `SnapshotLru.LatestAfterRecord` | src/test-intelligence/cache-break-detector.ts:255-263 | recording moves a source to the recent end of the unbounded log's latest snapshots |
| `SnapshotLru.NewestAfterRecord` | src/test-intelligence/cache-break-detector.ts:229-236 | evicting before or after a recording makes no difference |
| `SnapshotLru.StoreFinds` | src/test-intelligence/cache-break-detector.ts:229-267 | the store finds the last snapshot of a source exactly while fewer than `maxSnapshots` other sources were recorded since |
| `SnapshotLru.StoreRemembers` | src/test-intelligence/cache-break-detector.ts:245-267 | what the store remembers of a source, said of the unbounded log alone |
| `SnapshotLru.CreateDetector` | src/test-intelligence/cache-break-detector.ts:211-227 | a detector exists exactly for a positive number of snapshots and a run directory, and starts empty |
| `SnapshotLru.Detector.Touch` | src/test-intelligence/cache-break-detector.ts:229-236 | delete, re-insert, evict the oldest while over the limit |
| `SnapshotLru.Detector.RecordPromptState` | src/test-intelligence/cache-break-detector.ts:245-267 | keeps the store equal to the newest latest snapshots and returns the previous one exactly if still remembered |
| `SnapshotLru.Detector.CheckResponse` | src/test-intelligence/cache-break-detector.ts:269-296 | a break is suppressed exactly if its job's latest incident is a notice, which it uses up |
| `SnapshotLru.Detector.Notify` | src/test-intelligence/cache-break-detector.ts:334-358 | a notice replaces the pending one of its job |
| `SnapshotLru.PendingAfter` | src/test-intelligence/cache-break-detector.ts:285-358 | pending suppressions are exactly the jobs whose latest incident is a notice |
| `EvaluationLaws.NumbersAreRead` | packages/agentic-harness/src/formal-verification.ts:1330-1338 | a scalar counts as the number `n` exactly if it is `n`, a truth value standing for 1 or 0, or a run of digits with that positional value |
| `EvaluationLaws.TruthIsRead` | packages/agentic-harness/src/formal-verification.ts:1340-1346 | a scalar counts as a truth value exactly if it is one, one of two words, or a number, zero being false |
| `EvaluationLaws.EqualityIsRead` | packages/agentic-harness/src/formal-verification.ts:1319-1328 | when two scalars are equal, and when comparing them raises |
| `EvaluationLaws.SameIsSymmetric` | packages/agentic-harness/src/formal-verification.ts:1319-1328 | equality of scalars is symmetric, errors included |
| `EvaluationLaws.Comparisons` | packages/agentic-harness/src/formal-verification.ts:1285-1292 | on operands that count as numbers `>=` holds exactly if the left one is some natural number above the right one; `<` is its complement, `>` and `<=` are the converses of `<` and `>=` |
| `EvaluationLaws.Sums` | packages/agentic-harness/src/formal-verification.ts:1277-1278 | sums are determined by adding nothing and adding one more |
| `EvaluationLaws.Differences` | packages/agentic-harness/src/formal-verification.ts:1277-1280 | subtracting undoes adding and adding undoes subtracting |
| `EvaluationLaws.Equalities` | packages/agentic-harness/src/formal-verification.ts:1281-1284 | `=` and `!=` with their errors; on numbers equality is `<=` and `>=` together |
| `EvaluationLaws.ArithmeticRaises` | packages/agentic-harness/src/formal-verification.ts:1277-1292 | arithmetic and comparisons raise exactly if a side does not count as a number |
| `EvaluationLaws.Conjunctions` | packages/agentic-harness/src/formal-verification.ts:1293-1296 | the truth tables of `&` and `\|`; the right side's kind matters only if the left one does not decide |
| `EvaluationLaws.Implications` | packages/agentic-harness/src/formal-verification.ts:1297-1300 | the truth tables of `->` and `<->` |
| `EvaluationLaws.Memberships` | packages/agentic-harness/src/formal-verification.ts:1260-1268 | `in` holds exactly if a member is equal and every member before it can be compared; it is false exactly if all can be compared and none is equal |
| `EvaluationLaws.NamesAndLiterals` | packages/agentic-harness/src/formal-verification.ts:1240-1245 | a name is its variable's value, else itself if declared as a value, else an error |
| `EvaluationLaws.Cases` | packages/agentic-harness/src/formal-verification.ts:1304-1315 | a `case` has the value of the first branch whose guard is true, all guards before it being false, and raises if there is none |
| `SpecLaws.LastRuleWins` | packages/agentic-harness/src/formal-verification.ts:1361-1364 | the assignment that counts is the last one to the variable |
| `SpecLaws.DomainIsDeclared` | packages/agentic-harness/src/formal-verification.ts:1348-1353 | the domain is exactly the declared words, or the integers between the bounds, both included |
| `SpecLaws.DomainCheckIsRead` | packages/agentic-harness/src/formal-verification.ts:1398-1410 | a value passes the check exactly if it equals a declared word or counts as an integer of the range |
| `SpecLaws.LiteralsAreDeclared` | packages/agentic-harness/src/formal-verification.ts:1456-1464 | the words that stand for themselves are exactly the declared ones |
| `SpecLaws.StepsMean` | packages/agentic-harness/src/formal-verification.ts:1355-1396 | a step gives every variable, independently, a value that passes and that its last `next` denotes, or the value it has if there is none |
| `SpecLaws.StartsMean` | packages/agentic-harness/src/formal-verification.ts:1412-1452 | an initial valuation gives every variable a value that passes and that its last `init` denotes, or any declared one if there is none |
| `SpecLaws.FreeStart` | packages/agentic-harness/src/formal-verification.ts:1425-1430 | so a variable without `init` can be exchanged for any declared value in every initial valuation |
| `SpecLaws.RuleRaises` | packages/agentic-harness/src/formal-verification.ts:1366-1379 | enumerating raises for a variable exactly if its last assignment does |
| `Psd2Spec.StepsOfPsd2` | packages/agentic-harness/src/formal-verification/specs/psd2-sca-art-97.smv:59-78 | for every payment state and number of factors, the exact successors of the shipped specification |
| `Psd2Spec.GatheredLeadsOn` | packages/agentic-harness/src/formal-verification/specs/psd2-sca-art-97.smv:62 | with two factors gathered, `authenticating` leads to `authenticated` and nowhere else |
| `Psd2Spec.StartOfPsd2` | packages/agentic-harness/src/formal-verification/specs/psd2-sca-art-97.smv:56-57 | it starts in `idle` with no factors, and nowhere else |
| `Psd2Verdict.FormulasHold` | packages/agentic-harness/src/formal-verification/specs/psd2-sca-art-97.smv:80-87 | every reachable state satisfies the translations of its three LTL formulas |
| `Psd2Verdict.Psd2Passes` | packages/agentic-harness/src/formal-verification/specs/psd2-sca-art-97.smv:49-87 | verifying the shipped specification succeeds, whatever identifiers are used, and reports that all three formulas pass |
| `Psd2Text.TextsAreRead` | packages/agentic-harness/src/formal-verification/specs/psd2-sca-art-97.smv:80-87 | the three formulas as the file writes them are parsed into the formulas that pass |
| `Precedence.ConnectivesInOrder` | packages/agentic-harness/src/formal-verification.ts:1014-1069 | for every pair of connectives, how `x c y d z` is read: `&` binds tightest, then `\|`, `->` and `<->`; `->` leans to the right, the others to the left |
| `Precedence.UntilBeforeConnectives` | packages/agentic-harness/src/formal-verification.ts:1070-1087 | in LTL `U` binds tighter than the connectives on either side of it |
| `Precedence.LooseRoundTrips` | packages/agentic-harness/src/formal-verification.ts:1008-1153 | a printable formula printed with no more parentheses than needed is parsed back as itself, in both logics |
| `ExpressionPrecedence.ConnectivesInOrder` | packages/agentic-harness/src/formal-verification.ts:831-870 | the same order and direction for the connectives of expressions |
| `ExpressionPrecedence.SumGrows` | packages/agentic-harness/src/formal-verification.ts:926-938 | sums lean to the left, whatever their signs |
| `ExpressionPrecedence.RelationsCompareSums` | packages/agentic-harness/src/formal-verification.ts:882-925 | each of the six relation symbols compares the sums on its two sides |
| `ReadingLaws.UntilsAre` | packages/agentic-harness/src/formal-verification.ts:1088-1135 | `A[f U g]` and `E[f U g]` are the two CTL untils, with the operands in that order |
| `ReadingLaws.PrefixesAre` | packages/agentic-harness/src/formal-verification.ts:1088-1135 | G, F and X are operators of LTL, the six quantified ones of CTL |
| `ReadingLaws.OthersAreRefused` | packages/agentic-harness/src/formal-verification.ts:1088-1153 | an operator of the other logic is refused, whatever follows it |
| `ReadingLaws.SetsAre` | packages/agentic-harness/src/formal-verification.ts:939-1006 | a set literal lists its members in order, each token with its value; a comma may follow the last one |
| `ReadingLaws.MembershipIs` | packages/agentic-harness/src/formal-verification.ts:882-925 | `x in { .. }` is the membership of what is in front in that set |
| `ReadingLaws.BranchIs` | packages/agentic-harness/src/formal-verification.ts:939-1006 | a branch of a `case` is its guard, a colon, its value and a semicolon, in front of the later branches |
| `VerdictLaws.ExistsUntilMeans` | packages/agentic-harness/src/formal-verification.ts:1755-1771 | `E[p U q]` holds exactly where a finite walk through `p` states leads to a `q` state |
| `VerdictLaws.ExistsFinallyMeans` | packages/agentic-harness/src/formal-verification.ts:1703-1718 | `EF p` holds exactly where a `p` state can be reached |
| `VerdictLaws.AlwaysMeans` | packages/agentic-harness/src/formal-verification.ts:1747-1754 | `AG p` holds exactly where every finite walk ends in a `p` state |
| `VerdictLaws.NextMeans` | packages/agentic-harness/src/formal-verification.ts:1685-1702 | `EX p` and `AX p` hold exactly where some, or every, listed successor satisfies `p` |
| `VerdictLaws.ExistsGloballyMeans` | packages/agentic-harness/src/formal-verification.ts:1727-1746 | `EG p` holds exactly in the regions of `p` states in which every state keeps a successor |
| `VerdictLaws.EventuallyMeans` | packages/agentic-harness/src/formal-verification.ts:1719-1726 | `AF p` is the opposite of `EG !p` |
| `VerdictLaws.UniversalUntilMeans` | packages/agentic-harness/src/formal-verification.ts:1772-1785 | `A[p U q]` is the opposite of `E[!q U (!p & !q)]` or `EG !q` |
| `VerdictLaws.LtlOperatorsMean` | packages/agentic-harness/src/formal-verification.ts:1545-1588 | G, F and X of LTL, said of the rest of the path |
| `VerdictLaws.LtlUntilMeans` | packages/agentic-harness/src/formal-verification.ts:1545-1588 | `f U g` of LTL, said of the rest of the path |
| `VerdictLaws.CtlVerdictMeans` | packages/agentic-harness/src/formal-verification.ts:1957-2021 | a CTL formula is checked as it stands and passes exactly if every initial state satisfies it |
| `VerdictLaws.ReachableIffRun` | packages/agentic-harness/src/formal-verification.ts:1471-1531 | a valuation is reachable exactly if some finite run of the spec ends in it |
| `VerdictLaws.StatesEndRuns` | packages/agentic-harness/src/formal-verification.ts:1471-1531 | the states are exactly the ends of runs, at most 4096; edges are the admitted steps, and states that admit none lead to themselves; initial are exactly the valuations the spec may start with |
| `VerdictLaws.RefusedSizeMeans` | packages/agentic-harness/src/formal-verification.ts:1471-1531 | a spec is refused for its size only if more than 4096 valuations end its runs |
| `StateIds.IdStartsWithLeast` | packages/agentic-harness/src/formal-verification.ts:1221-1227 | an identifier gives the least key with its value, a bar, and the identifier of the other keys |
| `StateIds.JsonIs` | packages/agentic-harness/src/formal-verification.ts:1221-1227 | values stand in it as JSON: quoted and escaped words, decimal numbers, truth values |
| `CheckpointLaws.AcceptedIff` | packages/agentic-harness/src/agent-harness-checkpoint.ts:656-809 | position by position: accepted exactly if every checkpoint carries its position, is well-formed, carries the hash of the one before it or 64 zeros, agrees with its run on the parent and starts a new run only from a known one |
| `CheckpointLaws.FirstBreak` | packages/agentic-harness/src/agent-harness-checkpoint.ts:676-806 | what is reported for the first checkpoint out of place, and at which index, for each of the five causes |
| `CheckpointLaws.HeadIs` | packages/agentic-harness/src/agent-harness-checkpoint.ts:656-809 | the head reported for an accepted chain is the hash of its last checkpoint, or 64 zeros for the empty chain |
| `CheckpointLaws.DefectMeans` | packages/agentic-harness/src/agent-harness-checkpoint.ts:218-330 | which checkpoints pass the structural check, and which of the two reasons all others get |
| `CheckpointLaws.AppendMeans` | packages/agentic-harness/src/agent-harness-checkpoint.ts:410-459 | for every predecessor and input: which error an append gives, and otherwise the one checkpoint it produces |
| `CheckpointLaws.FollowsOnce` | packages/agentic-harness/src/agent-harness-checkpoint.ts:410-459 | that checkpoint is determined by predecessor and input |
| `LockLaws.HeldIsRefusedIff` | packages/agentic-harness/src/lessons-consolidation-lock.ts:670-687 | a held lock is refused exactly while its holder is alive and has had it for at most 3600000 ms; the refusal names holder and age and changes nothing |
| `LockLaws.HeldIsTakenOver` | packages/agentic-harness/src/lessons-consolidation-lock.ts:688-735 | otherwise a valid claim takes it over: new holder, modification time kept, a takeover from the displaced holder and an acquire added to the log |
| `LockLaws.FreeIsGiven` | packages/agentic-harness/src/lessons-consolidation-lock.ts:645-668 | a lock that nobody holds is given to exactly the valid claims, with one acquire added to the log |
| `LockLaws.ReleaseMeans` | packages/agentic-harness/src/lessons-consolidation-lock.ts:760-789 | a release is done exactly for the present holder's id, frees the lock and advances its modification time; otherwise nothing changes |
| `LockLaws.RollbackMeans` | packages/agentic-harness/src/lessons-consolidation-lock.ts:797-827 | a rollback is done exactly for the last holder's id, held or not, and sets the modification time to the value it gives |
| `LockLaws.LogIsExplained` | packages/agentic-harness/src/lessons-consolidation-lock.ts:617-827 | every event in the log of every run was recorded by one of its calls; a takeover by an acquire whose displaced holder was dead or more than an hour old |
| `LockLaws.ChainedIff` | packages/agentic-harness/src/lessons-consolidation-lock.ts:370-449 | position by position: a log is intact exactly if every event carries its position, is well-formed and carries the hash of the one before |
| `LockLaws.ReportMeans` | packages/agentic-harness/src/lessons-consolidation-lock.ts:370-449 | what is reported of any other log: its first event out of place, and why |
| `RaceLaws.RefusedByReading` | packages/agentic-harness/src/lessons-consolidation-lock.ts:566-687 | in every interleaving a contender is refused only right after reading another one's complete, held body |
| `RaceLaws.FinishedRaceMeans` | packages/agentic-harness/src/lessons-consolidation-lock.ts:645-735 | a finished race leaves one winner's held body, its acquire as the first and only event, everybody else refused and no temporary file |
| `ScalarLaws.SpaceDoesNotMatter` | packages/agentic-harness/src/agent-lessons-memdir.ts:330-331 | white space around a scalar makes no difference |
| `ScalarLaws.EscapesAre` | packages/agentic-harness/src/agent-lessons-memdir.ts:362-374 | the six escape sequences; every other character stands for itself |
| `ScalarLaws.DoubleQuotedIsRead` | packages/agentic-harness/src/agent-lessons-memdir.ts:312-334 | every text can be given between double quotes, escaped |
| `ScalarLaws.SingleQuotedIsRead` | packages/agentic-harness/src/agent-lessons-memdir.ts:328-336 | every text can be given between single quotes, its own single quotes doubled |
| `ScalarLaws.NumeralMeans` | packages/agentic-harness/src/agent-lessons-memdir.ts:339-346 | what looks like a number: an optional sign, digits, and an optional point with digits behind it |
| `ScalarLaws.PlainScalarMeans` | packages/agentic-harness/src/agent-lessons-memdir.ts:337-348 | an unquoted scalar is a truth value, a number if it looks like one and is finite, or the text as it stands |
| `ScalarLaws.WrittenAs` | packages/agentic-harness/src/agent-lessons-memdir.ts:350-375 | a text is written as it stands exactly if it consists of word characters and inner blanks and does not start with a hyphen, and escaped between double quotes otherwise |
| `BlockLaws.LineIs` | packages/agentic-harness/src/agent-lessons-memdir.ts:420-446 | every line is a fence, blank, an entry, or broken in one of three ways |
| `BlockLaws.EntryIs` | packages/agentic-harness/src/agent-lessons-memdir.ts:434-485 | what an entry gives: its key, and a list, a scalar or the missing space behind the colon |
| `BlockLaws.ItemIs` | packages/agentic-harness/src/agent-lessons-memdir.ts:456-468 | list items are indented by two blanks and marked with a hyphen |
| `BlockLaws.LinesMean` | packages/agentic-harness/src/agent-lessons-memdir.ts:406-487 | for every file: its block has two fences with only blank lines, entries with new keys and list items right behind their head between them, every key with its scalar or all its items; or the fault is that of the first line that breaks this |
| `BlockLaws.BlockIsUnique` | packages/agentic-harness/src/agent-lessons-memdir.ts:406-487 | lines make at most one such block |
| `LessonLaws.FrontmatterIs` | packages/agentic-harness/src/agent-lessons-memdir.ts:575-619 | the emitted frontmatter, line by line, with keys and values in their places |
| `LessonLaws.WrittenTextIs` | packages/agentic-harness/src/agent-lessons-memdir.ts:1124-1128 | the text of a lesson file: the ended lines of its frontmatter and the body, ended by a line feed |
| `LessonLaws.FromFieldsIff` | packages/agentic-harness/src/agent-lessons-memdir.ts:520-572 | a frontmatter is read from exactly the blocks that hold its fields under their keys and satisfy the invariants; other keys are ignored |
| `LessonLaws.LessonIff` | packages/agentic-harness/src/agent-lessons-memdir.ts:203-290 | the invariants, field by field: constants, identifiers, sorted lists, digests |
| `BundleLaws.ReaderFinds` | src/test-intelligence/customer-markdown-zip.ts:137-169 | a reader of a bundle's archive finds each text of the bundle under the name that belongs to it, nothing else, and the files in the order of their names |
| `BundleLaws.LocalHeaderStarts` | src/test-intelligence/customer-markdown-zip.ts:171-187 | the first 14 bytes of every local header |
| `BundleLaws.CentralHeaderStarts` | src/test-intelligence/customer-markdown-zip.ts:189-214 | the first 16 bytes of every directory header, and the zeros in it |
| `Crc32.CheckValue` | src/test-intelligence/customer-markdown-zip.ts:93-102 | the checksum of the digits 1 to 9 is 0xCBF43926, the check value of this CRC |
| `MergeLaws.ScreenIsLowest` | packages/agentic-harness/src/case-merger.ts:54-75 | the canonical screen is the lowest one, or a placeholder if there is none |
| `MergeLaws.FirstIsFirst` | packages/agentic-harness/src/case-merger.ts:89-108 | the case that stands for a signature is the first one with it |
| `MergeLaws.WinnerSurvives` | packages/agentic-harness/src/case-merger.ts:285-331 | for a signature of both passes the merged case is pass B's first one if only pass A's had to be repaired, else pass A's, in every field besides the united coverage; the report names it, the other one as dropped, and the reason |
| `MergeLaws.SingleSurvives` | packages/agentic-harness/src/case-merger.ts:266-349 | for a signature of one pass the merged case is that pass's first one, unchanged, and nothing is dropped |
| `MergeLaws.OutcomeInOrder` | packages/agentic-harness/src/case-merger.ts:351-354 | the merged cases are listed by their ids |
| `Ordering.LeqMeans` | packages/agentic-harness/src/case-merger.ts:351-354 | a text comes first if it is a prefix of the other or smaller where they first differ |
| `JiraLaws.ApprovalMeans` | src/test-intelligence/jira-write-adapter.ts:611-627 | a test case is approved exactly if the last snapshot of it is not blocked and in one of the states approved, exported and transferred |
| `JiraLaws.PlannedAreReviewed` | src/test-intelligence/jira-write-adapter.ts:1001-1004 | an open run plans exactly the approved cases of its input |
| `JiraLaws.ReviewGateMeans` | src/test-intelligence/jira-write-adapter.ts:688-694 | the gate about reviews is closed exactly if no case of the run has been approved |
| `JiraLaws.OpenMeans` | src/test-intelligence/jira-write-adapter.ts:673-716 | a run is open exactly if every switch is on, a token and a valid key are given, a case is approved and nothing blocks |
| `JiraLaws.SwitchesHaveTheirGates` | src/test-intelligence/jira-write-adapter.ts:673-716 | turning one switch of an open run, or taking away its token, key or cases, closes its own gate and no other |
| `JiraLaws.FindingsHaveTheirGates` | src/test-intelligence/jira-write-adapter.ts:673-716 | so does a single finding of policy, validation or the visual sidecar |
| `JiraLaws.KeysMean` | packages/multi-source/src/jira-issue-ir.ts:71-91 | an issue key is a project of at least two characters, a dash and a number without leading zeros |
| `JiraLaws.SendMeans` | src/test-intelligence/jira-write-adapter.ts:293-333 | for every network: a request is repeated after curable answers only, and its last answer decides |
| `JiraLaws.FailuresAreMarked` | src/test-intelligence/jira-write-adapter.ts:844-899 | a failed record is marked retryable exactly for transport errors, rate limits and server errors |
| `JiraLaws.FailureMeans` | src/test-intelligence/jira-write-adapter.ts:335-470 | the failure a record gives is that of the last answer, an unusable answer counting as a rejection; without a valid parent nothing is sent |
| `JiraLaws.OnlyReviewedAreWritten` | src/test-intelligence/jira-write-adapter.ts:928-1025 | every issue that a run adds belongs to an approved case of its input, and all others stay |
| `JiraLaws.RecordsAreOfReviewed` | src/test-intelligence/jira-write-adapter.ts:1001-1025 | the records of an open run are about exactly the approved cases of its input; a refused run has none |
| `JiraLaws.CountersMean` | src/test-intelligence/jira-write-adapter.ts:1021-1036 | the four counters of the report count the records that their names say |

## Left out

- Characters and positions: the formula parser starts from tokens; tokenising, line and column numbers, error texts, the section parser for `MODULE`, `VAR` and `ASSIGN`, and the report renderer are not modelled.
- LtlTranslation.TranslationExact: the fragment is the deterministic one, apart from weak until, which the syntax lacks; a formula outside it, such as `F G p`, may or may not be equivalent, and no syntactic boundary is claimed.
- Numbers of specs are unbounded integers; the program uses doubles, which differ beyond 2^53.
- State ids escape quotes and backslashes as JSON does; control characters, which the spec language cannot produce, are not escaped.
- Strings compare character by character; JavaScript compares UTF-16 code units, which orders characters outside the basic plane differently.
- Insertion order of the state map, of the predecessor lists and of `Map` iteration is not part of the contracts of the state-space search.
- CheckpointChain.VerifyChain: timestamps, UUID and digest patterns are abstract predicates of a field; a position without a checkpoint is not modelled, nor is the search for markers in error texts that tells two reasons apart.
- SHA-256 and canonical JSON are not modelled; hashes are functions, ideal where a lemma assumes it.
- The checkpoint and lock-event files on disk are sequences; reading a directory and writing temporary files is modelled only for the lock file in the first-acquire race.
- ConsolidationLock.EveryRunIsConsistent: calls are whole; interleavings of calls on an existing lock, which read and then rename, are not claimed to be safe.
- LockRace.MutualExclusion: only the first acquire, with no release and no holder that another contender finds stale; the second file read for the modification time cannot fail.
- Staleness of a holder is a given truth value; probing processes and host names is left out.
- LessonFile.ReadBackWhatWasWritten: printing and reading of numbers is given by the language and assumed to be faithful for the number at hand; path checks, supersession rules and the lesson scan are left out.
- A lesson's strings are sequences of Unicode characters; lone surrogates are left out.
- The lazily cached CRC table is rebuilt for every call.
- UTF-8 encoding is a given function, so the reader recovers encoded names and bodies.
- MarkdownBundle.AnySortAgrees: with equal file names the order depends on the engine's sort and is left open.
- The signature of a case is a tuple instead of its canonical JSON text; the fields that a merge only copies are one string.
- The clients of the Jira writer other than the HTTP client, which may throw, are left out; so are JQL sanitising, which changes nothing for valid keys and hexadecimal ids, response times and retry delays, texts of failures, the sub-task's description and the written artifacts.
- JiraWrite.Tenant.RunJiraSubtaskWrite: the locale's order is a given sort key, a tenant's search is assumed to see every issue created before, the client does not throw, and the artifacts of a run are not written.
- SnapshotLru.Detector.CheckResponse: tokens are real numbers; the diff artifact and the published event are left out.
- Model calls, settings, budgets, evaluation scripts, mock servers and the workbench user interface are left out.
