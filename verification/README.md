# Lumina: a verified model of its deterministic core

Lumina wraps language models in deterministic machinery: step functions that move a learner through
difficulty tiers, monitors that watch a window of turns, parsers and in-place rewriters, hash-chained
logs, session containers. The interesting guarantees of that machinery never show in one function
body. They appear over whole runs, or where two separately written pieces of code have to agree. This
project models those pieces in Dafny and proves such guarantees, for all inputs and all runs.

`dafny verify dfyconfig.toml` checks everything. Conventions used throughout:

* code that updates fields or loops is a class or a method, proved equal to a specification function;
  the lemmas are about that function, one file per source module. The `...Laws.dfy` files hold longer proofs,
  and say what a function does by comparing its results or by the inputs alone;
* floats are `real`; where the source rounds to six decimals, rounding is any function that lands on the
  six-decimal grid at most half a unit away;
* a JSON float is the text it is printed as, and what `float` and `repr` make of a literal is an arbitrary
  function that yields such texts and fixes them;
* the hash function is arbitrary (only: never the text `genesis`, and hexadecimal for the manifest), random
  draws and clocks are inputs, exceptions are values of `Parse`, `Option` or `Outcome` types.

## What is proved

**Algebra steps.** `AlgebraTools` is the character scanner, the one-equals-sign parser, the solver and the
checks, over real character sequences. `AlgebraLaws` proves that scanning any text that spells a sum of
signed terms (numerals with or without a decimal point, the variable, a denominator) returns exactly the
coefficient sum and the constant sum; that the parsed equation holds at a value exactly when the two
printed sides are equal there; what every step verdict means; that a step which amounts to adding the
same linear term to both sides, however it is regrouped, is accepted, and when one that amounts to
scaling both sides is. `ProblemGenerator` prints the equations this scanner reads back, and every printed
problem is solved by its own expected answer.

**Learning turns.** `Fluency`, `PostTurn`, `ZpdMonitor` and `LearningState` model the advancement gate, the
post-turn hook, the sliding window with its tiers, and the composite step with serialiser and rebuilder;
`ZpdLaws` and `LearningLaws` say which way and how far each kind of evidence moves the learner, which
challenges count as outside the band, and what a state is built from.
The three places that choose a tier agree over every run; window counters equal a recount of history;
a run interrupted by any number of save-and-rebuild restarts makes exactly the same decisions, although
solve times are lost each time.

**Ledger.** `Json` and `JsonLaws` give canonical JSON with the numbers and string escapes of sections 6 and 7 of
RFC 8259 and Python's three words for floats that are not finite: reading undoes writing, equal text means
equal values, and a record fills one line. `Ledger` states tamper evidence
without assuming an injective hash: two intact ledgers that end alike are the same, or a computed pair of
records collides. `LedgerFile` adds the file: framing, both loaders, the three commands that append, and
the freeze of a whole directory, for any text of the files; `LedgerCommands` says what each command writes,
and that a rollback names exactly the commit it undoes. `JournalLedger` ties the journal's escalation
record to the chain.

**Manifest.** `Manifest` models the stored file, how it is decoded, and two line scanners with different
reset rules, the parser and the rewriter. `ManifestPatterns` says which lines the three
patterns match, `ManifestLines` on which of them the scanners differ, and `ManifestLaws`
proves that they stay in step otherwise: for every file, what a rewrite writes, what it leaves alone, what a
check then reports, and when there was nothing to do.

**Affect and journal.** `Affect` bounds accumulated rounding over every run and proves that under unchanging
evidence the drift alarm falls silent for good, from a turn known beforehand; `AffectLaws` compares readings
one kind of evidence at a time. `Journal` is the intervention cascade: which turn fires which tier, read off
the history alone, and by `JournalLaws` off readings, deltas and baselines. `ProfileBaseline` is what the serialiser
keeps of both on the learner's profile, over runs that visit any modules and show any of the axes.

**Sessions, task graphs, migration, personas.** `Session`, `TaskGraph`, `Migration`, `Persona`: what survives a
switch of domain or a stopped process, which tasks are dispatched or deferred, what a second migration
changes, and that the persona that is stored is as safe as the one that was judged (`PersonaLaws` says what
safe means, and what an overlay says).

## Where the code does not do what it says

Each of these is a lemma with the exact condition, or a concrete input.

* A session restored from a saved fluency state hands out problems of its own tier exactly when its nominal
  difficulty selects that tier or some turn has advanced (`PostTurn.RestoredSessionAligned`); a stored document
  for which it does not is in `PostTurn.RestoredMayBeMisaligned`.
* Appending to a ledger file whose last line is not terminated loses or spoils a record
  (`LedgerFile.AppendThenLoad`).
* `parse_steps` and `check_equivalence` differ when two solutions are exactly 1e-9 apart, and when the step
  has no solution (False against null), or when a text is missing. The exact condition is `AlgebraLaws.EquivalenceAgreesWithSteps`; `x=0`
  with `x=0.000000001`, and `x=0` with `0=0.000000001`, are inputs of the two kinds (`AlgebraLaws.AnswersThatDiffer`).
* Rewriting the manifest turns every carriage return into a line feed, because the file is read with universal
  line ends and written without: the rest of the file is kept if and only if there is none
  (`ManifestLaws.RestOfFileKeptIff`, with an input in `ManifestLaws.LineEndIsChanged`). The lines of
  docs/MANIFEST.yaml almost all end in a carriage return and a line feed.
* The path pattern sees a line break other than a line feed as content, so the two manifest scanners disagree
  on some lines, exactly those of `ManifestLines.OddLinesDisagree`; one of them in front of a hash line, and
  nothing else, makes the rewrite miss that hash (`ManifestLaws.HashMissedIff`). A manifest that lists itself
  checks out after a rewrite exactly when nothing needed rewriting, short of a collision of old and new file
  (`ManifestLaws.SelfListedEntry`).
* Asking for a held domain by another of its names rebuilds its context, even for the active domain, and its
  turn count is lost (`Session.GetKeepsContexts`, `Session.AliasOfActiveRestartsIt`). Reopening a closed session
  in one domain forgets the saved state of the others (`Session.ReopeningForgetsOtherDomains`).
* The migration calls itself idempotent; it is so exactly when every legacy record has an id
  (`Migration.IdempotentIffIdentified`). Its module tier is never reached (`Migration.NeverModuleTier`), and a
  domain named by an escalation or an event is ignored (`Migration.DomainFileIff`).
* A made-up task id can collide with a given one, and the second task is then neither run nor deferred
  (`TaskGraph.MadeUpIdCollides`); with every task blocked the first runs anyway (`TaskGraph.FirstDispatchedAnyway`).
  The inspection sees the primary task only, so the others run whether or not it would approve them
  (`TaskGraph.OnlyPrimaryIsInspected`).
* A negative intensity cap is not kept, because the capped persona is clamped to zero (`Persona.OverlayKeepsCap`).
  Hard limits are called always rendered; they are exactly when the persona is not neutral by default, that is
  not at intensity zero, nor neutral or custom without traits (`Persona.LimitsReachTheDirective`).
* No code writes the journal's cross-session count, which the module configuration starts at 0 against a
  threshold of 2: as shipped tier 3 never fires and no escalation is ever written
  (`Journal.AlertPossibleIff`, `Journal.ShippedNeverAlerts`). Where it does fire, the record names itself the
  first of its ledger and breaks the chain unless the ledger was empty (`JournalLedger.EscalationBreaksChain`),
  and without an adapter or a session the alert is spent with nothing written (`Journal.AlertWithoutRecord`).
* The serialiser applies every entity of the saved journal state again on every save, so an entity mentioned
  once counts as sampled on each later turn and matures by itself (`ProfileBaseline.SavesCountAsMentions`).
  The stored salience of an entity is that of its first mention, while valence and arousal are means
  (`Journal.StoredIsMean`).

## Model

| member | source | states |
|---|---|---|
| `AlgebraTools.EvalSideLoop` | model-packs/education/controllers/algebra_tools.py:41-96 | the nested scanning loops with one index compute the recursive meaning of the text, including every failure and crash |
| `AlgebraTools.CollectTerm` | model-packs/education/controllers/algebra_tools.py:64-88 | the inner loop stops at the next sign with exactly the collected coefficient text, variable flag and denominator |
| `AlgebraTools.JudgeAll` | model-packs/education/controllers/algebra_tools.py:535-565 | the verdict exists iff some step was judged, and is True iff one was accepted and none rejected |
| `AlgebraTools.ParseSteps` | model-packs/education/controllers/algebra_tools.py:514-594 | on a given list of steps: when it raises, when there is a verdict, and which steps are marked invalid |
| `AlgebraTools.SolutionSubstitutes` | model-packs/education/controllers/algebra_tools.py:121-135 | the computed solution always passes the substitution check of its own equation |
| `AlgebraTools.SolutionIsRoot` | model-packs/education/controllers/algebra_tools.py:121-125 | the solution is the only value at which the parsed equation holds |
| `AlgebraLaws.NumeralReadsBack` | model-packs/education/controllers/algebra_tools.py:69-91 | a printed numeral, with or without decimal point, is read as its value |
| `AlgebraEdges.PointBetween` | model-packs/education/controllers/algebra_tools.py:89 | a point may stand between digits, in front of them or behind them, but not alone |
| `AlgebraEdges.TwoPoints` | model-packs/education/controllers/algebra_tools.py:89 | a second point makes it no numeral |
| `AlgebraLaws.ScanPrintedTerm` | model-packs/education/controllers/algebra_tools.py:64-91 | a printed term is collected as written and the scanner stops in front of the next sign |
| `AlgebraLaws.ScanPrintedSum` | model-packs/education/controllers/algebra_tools.py:41-96 | scanning a printed sum adds exactly its coefficients and constants to the accumulators |
| `AlgebraLaws.EvalSpelledSide` | model-packs/education/controllers/algebra_tools.py:41-96 | any text that spells a sum, blanks and a leading plus included, scans to the sum of coefficients and the sum of constants |
| `AlgebraLaws.LinearValue` | model-packs/education/controllers/algebra_tools.py:99-118 | that pair evaluates to the value of the terms at every value of the variable |
| `AlgebraLaws.ParseSpelledEquation` | model-packs/education/controllers/algebra_tools.py:99-118 | an equation of two spelled sums splits at its one equals sign and parses to their difference |
| `AlgebraEdges.SplitsIff` | model-packs/education/controllers/algebra_tools.py:25-35 | a text is an equation iff, stripped, it is two non-empty texts around its one equals sign |
| `AlgebraEdges.ParsedSideIsKnown` | model-packs/education/controllers/algebra_tools.py:53-87 | a side that is parsed has no character that a term cannot have |
| `AlgebraEdges.SpaceIsPassedOver` | model-packs/education/controllers/algebra_tools.py:83-87 | white space inside a term is passed over |
| `AlgebraEdges.NothingIsZero` | model-packs/education/controllers/algebra_tools.py:41-96 | an empty side and a lone sign are zero |
| `AlgebraEdges.UnparsedIsNotSatisfied` | model-packs/education/controllers/algebra_tools.py:128-135 | what does not parse is satisfied by no value |
| `AlgebraLaws.SubstitutionMeansEqualSides` | model-packs/education/controllers/algebra_tools.py:99-135 | the parsed equation holds at v iff the printed sides are equal at v; the check accepts v iff they are less than the tolerance apart |
| `AlgebraLaws.SolverIsSound` | model-packs/education/controllers/algebra_tools.py:121-125 | above the threshold the solver returns exactly the value at which the sides meet |
| `AlgebraLaws.StepVerdict` | model-packs/education/controllers/algebra_tools.py:544-557 | a step with root w is accepted against an original with root v iff they are within the tolerance |
| `AlgebraLaws.ExpectedOfSpelled` | model-packs/education/controllers/algebra_tools.py:527-528 | the original equation is held by its one root |
| `AlgebraLaws.DegenerateStepRejected` | model-packs/education/controllers/algebra_tools.py:544-557 | a step with no variable left is rejected |
| `AlgebraLaws.NothingExpected` | model-packs/education/controllers/algebra_tools.py:527-557 | without a root of the original every step is ignored |
| `AlgebraLaws.AddingToBothSidesAccepted` | model-packs/education/controllers/algebra_tools.py:527-557 | a step whose two sides have the coefficient and constant sums of the original plus the same linear term, in whatever order and grouping, is accepted if the original has a solution and ignored otherwise |
| `AlgebraLaws.ScalingBothSidesAccepted` | model-packs/education/controllers/algebra_tools.py:527-557 | a step whose sums are those of the original times k: exactly when it is ignored, accepted or rejected |
| `AlgebraLaws.ParsedAnswers` | model-packs/education/controllers/algebra_tools.py:439-565 | the answers of both branches for any two parsed equations |
| `AlgebraLaws.EquivalenceAgreesWithSteps` | model-packs/education/controllers/algebra_tools.py:439-565 | for all texts, empty ones included, exactly when the two branches answer alike; with an equation and work, unless both parse, the original has a solution, and the step has none or one exactly the tolerance away |
| `AlgebraLaws.AnswersThatDiffer` | model-packs/education/controllers/algebra_tools.py:439-565 | two pairs of equations, one for each way to differ |
| `ProblemGenerator.SelectTier` | model-packs/education/domain-lib/problem_generator.py:20-37 | some tier of the list, and one that covers the difficulty whenever any does |
| `ProblemGenerator.SelectTierLoop` | model-packs/education/domain-lib/problem_generator.py:20-37 | the search loop returns that tier |
| `ProblemGenerator.SelectsFirst` | model-packs/education/domain-lib/problem_generator.py:20-37 | the first tier whose bounds hold the difficulty, the upper one excluded, and the last of all if none does |
| `ProblemGenerator.MidpointSelects` | model-packs/education/domain-lib/problem_generator.py:20-37 | with non-empty disjoint ranges the midpoint of a tier selects that tier |
| `ProblemGenerator.LeftSpelled` | model-packs/education/domain-lib/problem_generator.py:40-110 | the left side of each generated equation spells its two or one terms in the scanner's grammar |
| `ProblemGenerator.AnswerBalances` | model-packs/education/domain-lib/problem_generator.py:40-110 | both sides have the same value at the drawn answer, and the equation is not degenerate |
| `ProblemGenerator.AnswerText` | model-packs/education/domain-lib/problem_generator.py:40-110 | the printed expected answer is itself an equation solved by the answer |
| `ProblemGenerator.GeneratedProblemIsSolved` | model-packs/education/domain-lib/problem_generator.py:113-145 | for every tier, difficulty and draw, the parser finds the expected answer, substitution accepts it, and the answer text is equivalent to the problem |
| `ProblemGenerator.EquationMatchesType` | model-packs/education/domain-lib/problem_generator.py:113-145 | coefficient and number of steps of the printed equation are those of the tier's type, an unknown type counting as the first |
| `Fluency.TierIndex` | model-packs/education/domain-lib/fluency_monitor.py:136-141 | the position of a listed tier, 0 for an unknown one |
| `Fluency.BuildInitial` | model-packs/education/domain-lib/fluency_monitor.py:144-165 | the loop starts in the tier that the tier selection gives for the nominal difficulty |
| `Fluency.InitialIs` | model-packs/education/domain-lib/fluency_monitor.py:144-165 | where the loop starts without tiers, and without a progression |
| `Fluency.StepEffect` | model-packs/education/domain-lib/fluency_monitor.py:71-119 | the tier index grows by one exactly on an advance |
| `Fluency.CounterEffect` | model-packs/education/domain-lib/fluency_monitor.py:71-100 | the counter stays below its target, grows only on fast correct turns and is closed by an advance |
| `Fluency.AdvancesIff` | model-packs/education/domain-lib/fluency_monitor.py:71-119 | the tier changes iff a fast correct turn reaches the target and a further tier is listed, and to that one |
| `Fluency.ActionMeans` | model-packs/education/domain-lib/fluency_monitor.py:71-133 | an advance is announced iff it happens, a hint asked for iff a correct turn was too slow and nothing advanced, and the reported tier is the stored one |
| `Fluency.SolveTimesAreTail` | model-packs/education/domain-lib/fluency_monitor.py:71-100 | over every run the solve times kept are those of a tail of correct turns, at least as many as the counter |
| `Fluency.RunBounds` | model-packs/education/domain-lib/fluency_monitor.py:71-119 | over every run target * advances + count never exceeds the fast correct solves, and the tier index is the start plus the advances |
| `Fluency.TierNeverFalls` | model-packs/education/domain-lib/fluency_monitor.py:103-119 | the tier index never falls between two moments of a run |
| `Fluency.CounterCountsTail` | model-packs/education/domain-lib/fluency_monitor.py:71-100 | the counter counts a tail of fast correct turns with no advance among them |
| `Fluency.AdvanceClosesBlock` | model-packs/education/domain-lib/fluency_monitor.py:71-119 | each advance closes its own block of `target` consecutive fast correct turns |
| `PostTurn.TargetTier` | model-packs/education/controllers/education_post_turn.py:73-74 | a listed tier, and one with the wanted id whenever there is one |
| `PostTurn.Session.PostTurn` | model-packs/education/controllers/education_post_turn.py:21-100 | the whole new state: task completion, midpoint, new problem, counters reset, and what stays |
| `PostTurn.Session.Turn` | model-packs/education/controllers/education_post_turn.py:21-100 | an aligned session stays aligned, and each new problem carries the current tier and is solved by its own answer |
| `PostTurn.AlignmentKept` | model-packs/education/controllers/education_post_turn.py:60-81 | one turn keeps nominal difficulty and current tier in agreement iff a generator is registered or nothing advanced |
| `PostTurn.AdvanceRealigns` | model-packs/education/controllers/education_post_turn.py:71-77 | an advance next to a generator restores the agreement from any state |
| `PostTurn.TargetSelected` | model-packs/education/controllers/education_post_turn.py:73-77 | the midpoint of the tier that is advanced to selects that tier |
| `PostTurn.GeneratedCarriesTier` | model-packs/education/domain-lib/problem_generator.py:113-145 | a generated problem carries the selected tier and is solved by its expected answer |
| `PostTurn.AlwaysAligned` | model-packs/education/controllers/education_post_turn.py:60-88 | from a fresh session, over every run, the nominal difficulty selects the fluency monitor's tier |
| `PostTurn.FirstSessionAligned` | model-packs/education/controllers/learning_adapters.py:94-151 | the first session in a module, built from its initial state, is aligned over every run |
| `PostTurn.AlignedIff` | model-packs/education/controllers/education_post_turn.py:60-88 | from any learner, after any run, the nominal difficulty selects the current tier iff it did at the start or some turn advanced |
| `PostTurn.ProblemCarriesTierIff` | model-packs/education/controllers/education_post_turn.py:60-88 | a problem handed out after the run carries the current tier under exactly that condition |
| `PostTurn.RestoredSessionAligned` | model-packs/education/controllers/learning_adapters.py:77-161 | the same for a session rebuilt from a stored fluency state, whatever the rest of the document holds |
| `PostTurn.RestoredMayBeMisaligned` | model-packs/education/controllers/learning_adapters.py:77-161 | a stored document whose rebuilt session hands out problems of another tier than the one it is in |
| `ZpdMonitor.NextMastery` | model-packs/education/domain-lib/zpd_monitor_v0_2.py:260-298 | mastery stays between 0 and 1 |
| `ZpdMonitor.MasteryFrame` | model-packs/education/domain-lib/zpd_monitor_v0_2.py:260-298 | exactly the required skills change, and each is known afterwards |
| `ZpdMonitor.MasteryAmount` | model-packs/education/domain-lib/zpd_monitor_v0_2.py:260-298 | a skill listed once moves by the delta, from zero if unknown, cut off at 0 and 1 |
| `ZpdMonitor.UpdateMastery` | model-packs/education/domain-lib/zpd_monitor_v0_2.py:260-298 | the loop over the copied dictionary computes that update |
| `ZpdMonitor.Step` | model-packs/education/domain-lib/zpd_monitor_v0_2.py:412-482 | a valid state stays valid, and the tier is the one detected on the window just moved |
| `ZpdMonitor.WindowIsRecount` | model-packs/education/domain-lib/zpd_monitor_v0_2.py:301-351 | from a fresh window the stored flags, counts, share and runs equal a recount of the last turns |
| `ZpdMonitor.TierOfHistory` | model-packs/education/domain-lib/zpd_monitor_v0_2.py:354-405 | exactly which histories end in tier major, and which in ok |
| `ZpdMonitor.CalmFlags` | model-packs/education/domain-lib/zpd_monitor_v0_2.py:301-351 | calm turns push false flags into the window, whatever it held |
| `ZpdMonitor.CalmTurnsEndOk` | model-packs/education/domain-lib/zpd_monitor_v0_2.py:354-405 | from any window, as many calm turns as the window is long end in tier ok |
| `ZpdLaws.StepJudgesChallenge` | model-packs/education/domain-lib/zpd_monitor_v0_2.py:443-470 | the challenge decided on is the one stored, and the turn is outside iff it is more than 0.01 beyond the band |
| `ZpdLaws.StepSeesFrustration` | model-packs/education/domain-lib/zpd_monitor_v0_2.py:119-140 | what counts as frustration, by the window just moved and the evidence |
| `ZpdLaws.CountAdds` | model-packs/education/domain-lib/zpd_monitor_v0_2.py:324-340 | each flag that is up counts one, wherever it stands |
| `ZpdLaws.ShareIsCount` | model-packs/education/domain-lib/zpd_monitor_v0_2.py:328 | the share times the length is the count |
| `ZpdLaws.TrailingRunIsLongest` | model-packs/education/domain-lib/zpd_monitor_v0_2.py:329-335 | a run of the recount is up throughout and cannot be extended |
| `ZpdLaws.HarderIsGreater` | model-packs/education/domain-lib/zpd_monitor_v0_2.py:173-199 | a harder task of the same skills is a greater challenge, by as much as it is harder |
| `ZpdLaws.UncertainIsGreater` | model-packs/education/domain-lib/zpd_monitor_v0_2.py:173-199 | a tenth of any difference in uncertainty goes into the challenge |
| `ZpdLaws.NominalChallenge` | model-packs/education/domain-lib/zpd_monitor_v0_2.py:185-199 | with no skill asked for and nothing uncertain the challenge is the nominal difficulty |
| `ZpdLaws.MasteryEases` | model-packs/education/domain-lib/zpd_monitor_v0_2.py:173-199 | a learner who masters each skill at least as well meets no greater challenge |
| `ZpdLaws.MasteredChallenge` | model-packs/education/domain-lib/zpd_monitor_v0_2.py:173-199 | with all skills mastered alike, each unit of mastery takes four tenths off the challenge |
| `ZpdLaws.MasteryMoves` | model-packs/education/domain-lib/zpd_monitor_v0_2.py:260-298 | by how much each kind of answer moves a skill asked for once |
| `ZpdLaws.ClearAnswersSettle` | model-packs/education/domain-lib/zpd_monitor_v0_2.py:143-170 | the order of the kinds of answer by the uncertainty they leave, with the exact distances |
| `ZpdLaws.NothingFelt` | model-packs/education/domain-lib/zpd_monitor_v0_2.py:202-257 | an ordinary turn without an attempt changes no affect |
| `ZpdLaws.AnswersFelt` | model-packs/education/domain-lib/zpd_monitor_v0_2.py:202-257 | the same for mood and attention |
| `ZpdLaws.FrustrationFelt` | model-packs/education/domain-lib/zpd_monitor_v0_2.py:202-257 | what two signs of frustration do to the affect, and nothing else |
| `ZpdLaws.OffTaskFelt` | model-packs/education/domain-lib/zpd_monitor_v0_2.py:202-257 | what being off task does, and nothing else |
| `ZpdLaws.PaceFelt` | model-packs/education/domain-lib/zpd_monitor_v0_2.py:202-257 | what a quick, a usual and a slow answer do, and how a missing latency is read |
| `LearningState.Build` | model-packs/education/controllers/learning_adapters.py:77-161 | whatever the stored document holds, the built state is valid |
| `LearningState.RestartForgetsOnlyTimes` | model-packs/education/controllers/education_profile_serializer.py:154-167 | saving and rebuilding gives the state back without its solve times |
| `LearningState.StepRespectsAlike` | model-packs/education/controllers/learning_adapters.py:164-215 | states that differ in solve times only decide alike and stay alike |
| `LearningState.RestartsPreserveAlike` | model-packs/education/controllers/learning_adapters.py:77-215 | a run with restarts anywhere simulates the run without |
| `LearningState.RestartsAreUnobservable` | model-packs/education/controllers/learning_adapters.py:77-215 | for every document, run and choice of restarts the decisions are those of the uninterrupted run |
| `LearningState.RunFollowsWindow` | model-packs/education/controllers/learning_adapters.py:164-215 | the composite run moves the window as the monitor alone would, and decides on it |
| `LearningState.DecisionOf` | model-packs/education/controllers/learning_adapters.py:199-213 | over every run the window monitor's action comes before the fluency gate's, and escalation is held back exactly until the window has seen enough turns |
| `LearningLaws.FlagsOfRun` | model-packs/education/controllers/learning_adapters.py:164-215 | over every run, the turns recorded as outside are those on task whose challenge is beyond the band the learner started with |
| `LearningLaws.TierOfRun` | model-packs/education/controllers/learning_adapters.py:164-215 | from a fresh window, the tier of the last turn of any run, told by challenges, band and evidence |
| `LearningLaws.InBandRunEndsOk` | model-packs/education/controllers/learning_adapters.py:164-215 | from any learning state, a run as long as the window whose challenges are in the band and which shows no trouble ends in tier ok, with the action left to the fluency gate |
| `LearningLaws.ActionsOfRun` | model-packs/education/controllers/learning_adapters.py:199-205 | the action of every turn of a run, by name |
| `LearningLaws.FluencyGoesBySolveTime` | model-packs/education/controllers/learning_adapters.py:190-198 | the solve time decides for the fluency gate, the latency only where there is none, and zero without either |
| `LearningLaws.FluencyCounts` | model-packs/education/controllers/learning_adapters.py:185-199 | below the target a correct answer in time counts, and any other starts over |
| `LearningLaws.BuiltFromAnyPlace` | model-packs/education/controllers/learning_adapters.py:87-99 | a saved state comes back from the stored module state, the initial state and the profile alike, whatever stands behind it |
| `LearningLaws.PlacesReadAlike` | model-packs/education/controllers/learning_adapters.py:94-99 | any document is read alike in each place, and an empty one is passed over |
| `LearningLaws.BuiltAffect` | model-packs/education/controllers/learning_adapters.py:100-127 | stored affect is taken over and each missing axis has its default |
| `LearningLaws.BuiltBand` | model-packs/education/controllers/learning_adapters.py:102-109 | so is the challenge band |
| `LearningLaws.BuiltEstimates` | model-packs/education/controllers/learning_adapters.py:105-132 | so are challenge, uncertainty and mastery |
| `LearningLaws.BuiltWindow` | model-packs/education/controllers/learning_adapters.py:111-120 | so is the window, key by key |
| `LearningLaws.BuiltFluency` | model-packs/education/controllers/learning_adapters.py:140-151 | a saved tier is taken over; without one the session starts in the tier of the nominal difficulty with nothing counted |
| `JsonLaws.ReadFloatText` | model-packs/system/controllers/system_log_validator.py:67-69 | a printed float, with fraction or exponent or not finite, is read as that float |
| `JsonLaws.NumeralEndCut` | model-packs/system/controllers/system_log_validator.py:101-116 | what is read as a float is a numeral with a fraction or an exponent, which reads alike on its own |
| `JsonGrammar.PartsMakeNumeral` | model-packs/system/controllers/system_log_validator.py:101-116 | an integer part with a fraction, an exponent or both behind it is a float numeral |
| `JsonGrammar.NumeralHasParts` | model-packs/system/controllers/system_log_validator.py:101-116 | and every float numeral is one |
| `JsonGrammar.ReadsEscaped` | model-packs/system/controllers/system_log_validator.py:101-116 | every character is read back from its numeric escape, beyond the Basic Multilingual Plane from a surrogate pair |
| `JsonLaws.ReadRendered` | model-packs/system/controllers/system_log_validator.py:67-69 | reading printed JSON gives the value and leaves the rest of the text |
| `JsonLaws.LoadsDumps` | model-packs/system/controllers/system_log_validator.py:101-124 | reading back what was written gives the record with its keys in order |
| `JsonLaws.SortedIsUnique` | model-packs/system/controllers/system_log_validator.py:67-69 | there is one sorted order of given fields, so insertion order cannot matter |
| `JsonLaws.SameIffCanon` | model-packs/system/controllers/system_log_validator.py:67-69 | two JSON values are equal iff their canonical forms are identical |
| `JsonLaws.DumpsInjective` | model-packs/system/controllers/system_log_validator.py:67-69 | two records are written alike iff they are equal as JSON values |
| `JsonLaws.LoadsPython` | model-packs/system/controllers/system_log_validator.py:101-116 | everything that is read has distinct keys in every dictionary and floats that print as they are |
| `JsonLaws.LoadedIsSame` | model-packs/system/controllers/system_log_validator.py:101-124 | a loaded record equals the written one and is written the same way again |
| `JsonLaws.CanonTwice` | model-packs/system/controllers/system_log_validator.py:67-69 | canonicalising is idempotent at every depth |
| `JsonLaws.RenderIsOneLine` | model-packs/system/controllers/system_log_validator.py:119-124 | no printed value contains a raw line break |
| `JsonLaws.DumpsIsOneLine` | model-packs/system/controllers/system_log_validator.py:119-124 | a written record fills one line and `strip` removes nothing of it |
| `Ledger.VerifyChain` | model-packs/system/controllers/system_log_validator.py:131-180 | on any loaded values: raises iff a value that is no dictionary is reached before a violated link; otherwise intact iff every link holds, or the least violated link with its record id and count |
| `Ledger.LinksOfPrefix` | model-packs/system/controllers/system_log_validator.py:131-180 | appending never touches an earlier link |
| `Ledger.AppendKeepsIntact` | model-packs/system/controllers/system_log_validator.py:131-180 | a record chained on keeps an intact ledger intact |
| `Ledger.BrokenStaysBroken` | model-packs/system/controllers/system_log_validator.py:131-180 | a broken ledger stays broken at the same index under any appends |
| `Ledger.SecondGenesisBreaks` | model-packs/system/controllers/system_log_validator.py:131-180 | a record that names itself the first breaks an intact ledger at its own index iff the ledger was not empty |
| `JournalLedger.EscalationBreaksChain` | model-packs/education/controllers/journal_adapters.py:623-657 | the escalation record of any journal run is such a record, field by field |
| `JournalLedger.RecordSays` | model-packs/education/controllers/journal_adapters.py:623-645 | whom the record is for and where it comes from, key by key |
| `JournalLedger.RecordAlwaysSays` | model-packs/education/controllers/journal_adapters.py:623-645 | the keys that say the same in every record |
| `JournalLedger.EvidenceSays` | model-packs/education/controllers/journal_adapters.py:602-617 | the reading axis by axis, how often each tier fired, and the number of sessions |
| `Ledger.SameLookup` | model-packs/system/controllers/system_log_validator.py:76-78 | equal records hold equal values under every key |
| `Ledger.PrefixIntact` | model-packs/system/controllers/system_log_validator.py:131-180 | every non-empty ledger without its last record is intact if it was |
| `Ledger.TamperEvidence` | model-packs/system/controllers/system_log_validator.py:131-180 | two intact ledgers that end in records of equal hash are the same, or the computed pair of different records has equal hash |
| `Ledger.LastRecordFixesLedger` | model-packs/system/controllers/system_log_validator.py:131-180 | without a collision the last record fixes the whole ledger and its length |
| `LedgerFile.LoadLedger` | model-packs/system/controllers/system_log_validator.py:101-116 | the line loop returns all records, or nothing if some line is not JSON |
| `LedgerFile.LoadersAgree` | model-packs/system/controllers/security_freeze.py:55-68 | the tolerant loader returns the same records whenever the strict one succeeds |
| `LedgerFile.AppendThenSee` | model-packs/system/controllers/security_freeze.py:55-75 | behind a blank remainder the tolerant loader sees the old records and then exactly the new one, whatever lines it skips |
| `LedgerFile.AppendThenLoad` | model-packs/system/controllers/system_log_validator.py:101-124 | appending and reloading gives the old records and then exactly the new one iff nothing but white space follows the last line break |
| `LedgerFile.RoundTripOneLine` | model-packs/system/controllers/system_log_validator.py:119-124 | a record written behind a blank remainder is loaded as the last record |
| `LedgerFile.FindPrior` | model-packs/system/controllers/system_log_validator.py:313-321 | the reversed search finds an activation of the subject with none behind it, finds none, or raises on a value that is no dictionary with none found behind it: exactly when each |
| `LedgerCommands.PriorIs` | model-packs/system/controllers/system_log_validator.py:313-321 | told by the keys of the records: the last activation of the subject, or none iff there is none |
| `LedgerFile.LedgerFile.Run` | model-packs/system/controllers/system_log_validator.py:264-367 | commit and rollback write at most one record, and nothing when they refuse or raise; any file is accepted |
| `LedgerFile.LedgerFile.FreezeOne` | model-packs/system/controllers/security_freeze.py:148-180 | a freeze of any file reports the chain as it was and then appends its record, unless the check raises |
| `LedgerFile.LedgerDirectory.FreezeAll` | model-packs/system/controllers/security_freeze.py:146-182 | every file before the first on which the check raises is frozen, no other; the overall verdict is intact iff every chain is |
| `LedgerFile.BuiltRecordChains` | model-packs/system/controllers/system_log_validator.py:187-224 | the record of every command chains on to the ledger it was built for |
| `LedgerFile.BuiltIsValid` | model-packs/system/controllers/system_log_validator.py:187-224 | every command builds a dictionary with distinct keys |
| `LedgerFile.OpOnFramed` | model-packs/system/controllers/system_log_validator.py:264-367 | a command leaves a framed file as it is or adds one record that chains on to what was seen; commits and rollbacks leave a file with an unreadable line alone, a freeze never does |
| `LedgerFile.RunOfCommands` | model-packs/system/controllers/security_freeze.py:55-180 | any run of commits, rollbacks and freezes on a terminated file, unreadable lines included, keeps the records seen, an intact chain, and the first broken index of a broken one |
| `LedgerCommands.CommandAppends` | model-packs/system/controllers/system_log_validator.py:187-367 | on a readable file a commit or a confirmed rollback appends one record that says, key by key, what was asked for, or writes nothing |
| `LedgerCommands.FreezeAppends` | model-packs/system/controllers/security_freeze.py:163-178 | so does a freeze on any framed file |
| `LedgerCommands.FreezeWritesUnless` | model-packs/system/controllers/security_freeze.py:82-178 | on any file a freeze writes its record unless the chain holds up to a value that is no dictionary |
| `LedgerCommands.FreezesAreRecorded` | model-packs/system/controllers/security_freeze.py:148-178 | over every run on a framed file each freeze leaves a record of its own, and no command more than one |
| `LedgerCommands.RollbackNames` | model-packs/system/controllers/system_log_validator.py:313-358 | a confirmed rollback names nothing iff no activation of the subject is there, and otherwise the last one by its id |
| `LedgerCommands.RollbackNamesItsCommit` | model-packs/system/controllers/system_log_validator.py:264-367 | after a commit that activates a subject and any commands that do not, a confirmed rollback of it names exactly that commit |
| `LedgerCommands.CanonLookup` | model-packs/system/controllers/system_log_validator.py:67-69 | putting keys in order changes no lookup |
| `Manifest.ParseArtifacts` | model-packs/system/controllers/manifest_integrity.py:57-85 | the line loop collects the entries in order, each with the first hash line behind it |
| `Manifest.Repository.Check` | model-packs/system/controllers/manifest_integrity.py:367-414 | one status per entry of the stored file, in order |
| `Manifest.Repository.Regen` | model-packs/system/controllers/manifest_integrity.py:417-469 | the stored file is read with every carriage return as a line feed and replaced by the rewritten text; the counts of hashes and missing paths |
| `Manifest.CollectHashes` | model-packs/system/controllers/manifest_integrity.py:186-197 | the digests of the existing files and the list of missing ones |
| `ManifestLaws.MissingAre` | model-packs/system/controllers/manifest_integrity.py:186-197 | a path is reported missing iff it is listed and its file is not there, as often as it is listed and in that order |
| `Manifest.RewriteText` | model-packs/system/controllers/manifest_integrity.py:205-235 | the rewriting loop with its own idea of the current path |
| `ManifestLines.SplitGivesLines` | model-packs/system/controllers/manifest_integrity.py:204-235 | splitting gives lines that join to the text |
| `ManifestLines.SplitJoin` | model-packs/system/controllers/manifest_integrity.py:204-235 | joined lines split into themselves |
| `ManifestLines.PatternsDisjoint` | model-packs/system/controllers/manifest_integrity.py:41-46 | no line matches two of the three patterns |
| `ManifestPatterns.DateIs` | model-packs/system/controllers/manifest_integrity.py:45-46 | key, blanks, a word and nothing or white space behind it make a top-level date line, and the word is its value |
| `ManifestPatterns.DateMeans` | model-packs/system/controllers/manifest_integrity.py:45-46 | nothing else does |
| `ManifestPatterns.ShaIs` | model-packs/system/controllers/manifest_integrity.py:42-44 | the same for an indented hash line |
| `ManifestPatterns.ShaMeans` | model-packs/system/controllers/manifest_integrity.py:42-44 | nothing else is one |
| `ManifestPatterns.PathIs` | model-packs/system/controllers/manifest_integrity.py:41 | up to two white-space characters, a dash, more of them, the key, more of them and a text make an item, and the text stripped is its path |
| `ManifestPatterns.PathMeans` | model-packs/system/controllers/manifest_integrity.py:41 | an item starts with at most two white-space characters and a dash |
| `ManifestPatterns.DashMeans` | model-packs/system/controllers/manifest_integrity.py:41 | and goes on with more of them, the key and at least one more |
| `ManifestLines.ShaRewritten` | model-packs/system/controllers/manifest_integrity.py:224-231 | a rewritten hash line is a hash line with the new value and the same surroundings |
| `ManifestLines.DateRewritten` | model-packs/system/controllers/manifest_integrity.py:211-215 | a rewritten date line is a date line with the new date |
| `ManifestLines.LineFeedsAgree` | model-packs/system/controllers/manifest_integrity.py:57-85 | with ordinary line feeds the parser and the rewriter see the same items |
| `ManifestLines.OddLinesDisagree` | model-packs/system/controllers/manifest_integrity.py:41-66 | the parser and the rewriter read a line differently iff it is an item key, one white-space character and a line break other than a line feed |
| `ManifestLines.OddItemsExist` | model-packs/system/controllers/manifest_integrity.py:41-46 | every white-space character and every such break make one |
| `ManifestLines.AgreeIffNoOddLine` | model-packs/system/controllers/manifest_integrity.py:57-85 | the scanners agree on a whole text iff it has no such line |
| `ManifestLaws.HashMissedIff` | model-packs/system/controllers/manifest_integrity.py:200-235 | for an item with its hash line anywhere in a file, the rewrite misses the hash iff such a line stands between the two, and writes it otherwise |
| `ManifestLaws.InStepThroughout` | model-packs/system/controllers/manifest_integrity.py:57-85 | on every text parser and rewriter agree line by line on which hash line belongs to which path, apart from the missed entries, before and after the rewrite |
| `ManifestLaws.RewriteTwice` | model-packs/system/controllers/manifest_integrity.py:200-235 | rewriting again with the same hashes changes nothing |
| `ManifestLaws.RegenEntries` | model-packs/system/controllers/manifest_integrity.py:175-241 | for every stored file: after a regen the parser sees the same paths in the same order with the new hashes except where missed, and of the text that was read only hash values and top-level dates changed |
| `ManifestLaws.RestOfFileKeptIff` | model-packs/system/controllers/manifest_integrity.py:204-235 | the rest of the stored file stays as it is iff it holds no carriage return |
| `ManifestLaws.LineEndIsChanged` | model-packs/system/controllers/manifest_integrity.py:204-235 | a one-line file whose line end is changed |
| `ManifestLaws.RegenThenCheck` | model-packs/system/controllers/manifest_integrity.py:98-241 | after a regen of a manifest that does not list itself: the status of every entry, and the check passes iff no missed entry had a wrong hash |
| `ManifestLaws.RegenThenCheckPasses` | model-packs/system/controllers/manifest_integrity.py:98-241 | with ordinary or Windows line ends no entry is missed and the check passes |
| `ManifestLaws.RegenTwice` | model-packs/system/controllers/manifest_integrity.py:175-241 | a second regen on the same day changes nothing |
| `ManifestLaws.RegenChangesNothingIff` | model-packs/system/controllers/manifest_integrity.py:175-241 | a regen leaves the stored file as it is iff it has no carriage return, every top-level date is today's and every hash that would be written is already there |
| `ManifestLaws.SelfListedEntry` | model-packs/system/controllers/manifest_integrity.py:98-241 | unless old and new file collide, the manifest's own entry checks out after a regen iff nothing needed changing |
| `ManifestLaws.AddedEntries` | model-packs/system/controllers/manifest_integrity.py:284-294 | added files are listed behind the old entries, in order, each pending |
| `ManifestLaws.AddThenRegen` | model-packs/system/controllers/manifest_integrity.py:285-297 | adding and regenerating leaves every added file that exists with a correct hash |
| `Affect.UpdateAffect` | model-packs/assistant/domain-lib/affect_monitor.py:244-321 | any evidence gives a reading in range |
| `AffectLaws.NothingHappens` | model-packs/assistant/domain-lib/affect_monitor.py:244-321 | evidence of nothing in particular leaves the reading as it is |
| `AffectLaws.StatusMoves` | model-packs/assistant/domain-lib/affect_monitor.py:269-313 | all else equal, how far abandoned, open and completed tasks are apart on each axis, and in which order |
| `AffectLaws.SatisfactionMoves` | model-packs/assistant/domain-lib/affect_monitor.py:279-299 | the same for negative, unknown, neutral and positive satisfaction |
| `AffectLaws.OffTaskMoves` | model-packs/assistant/domain-lib/affect_monitor.py:275-276 | the same for being off task |
| `AffectLaws.PaceMoves` | model-packs/assistant/domain-lib/affect_monitor.py:277-309 | the same for quick, usual and slow answers, and how a missing latency is read |
| `AffectLaws.SwitchingMoves` | model-packs/assistant/domain-lib/affect_monitor.py:284-311 | the same for switches of intent |
| `AffectLaws.ToolMoves` | model-packs/assistant/domain-lib/affect_monitor.py:301-302 | asking for a tool costs mood iff the task is given up |
| `AffectLaws.StartMatters` | model-packs/assistant/domain-lib/affect_monitor.py:314-318 | evidence never reverses the order of two starting points |
| `AffectLaws.AlarmNamesFirstFastest` | model-packs/assistant/domain-lib/affect_monitor.py:426-441 | the alarm names the first of the fastest axes |
| `AffectLaws.SamplesAreTurns` | model-packs/assistant/domain-lib/affect_monitor.py:363-420 | one sample a turn, and no alarm before enough of them |
| `AffectLaws.VarianceSeesDistance` | model-packs/assistant/domain-lib/affect_monitor.py:342-348 | the variance sees the distance of a reading from the mean, not its side |
| `Affect.DriftAlarm` | model-packs/assistant/domain-lib/affect_monitor.py:403-447 | the alarm is raised iff enough samples were seen and some axis is fast enough, and it names a fastest axis |
| `Affect.RoundingErrorBounded` | model-packs/assistant/domain-lib/affect_monitor.py:324-378 | over every run the stored average is within 0.0000005 / alpha of the exact one |
| `Affect.StoredStaysInRange` | model-packs/assistant/domain-lib/affect_monitor.py:324-378 | the stored average never leaves the range of its axis |
| `Affect.TurnStaysInRange` | model-packs/assistant/domain-lib/affect_monitor.py:244-378 | a whole turn keeps every axis in range under any evidence |
| `Affect.VelocityShrinks` | model-packs/assistant/domain-lib/affect_monitor.py:324-378 | under a constant reading the exact velocity shrinks by 1 - alpha each turn |
| `Affect.VelocityIs` | model-packs/assistant/domain-lib/affect_monitor.py:324-378 | its closed form after n turns |
| `Affect.PowerDecays` | model-packs/assistant/domain-lib/affect_monitor.py:324-378 | the decay factor is at most 1 / (1 + n * alpha) |
| `Affect.ExactAlarmStops` | model-packs/assistant/domain-lib/affect_monitor.py:403-443 | the exact alarm condition stops holding after an explicit number of turns |
| `Affect.StoredAlarmStops` | model-packs/assistant/domain-lib/affect_monitor.py:403-443 | so does the alarm on the stored values, when the threshold is above the rounding noise |
| `Affect.ReadingAfter` | model-packs/assistant/domain-lib/affect_monitor.py:244-318 | the reading after n turns of the same evidence, in closed form |
| `Affect.ReadingSettles` | model-packs/assistant/domain-lib/affect_monitor.py:244-318 | from a number of turns on that depends on the evidence alone it no longer moves |
| `Affect.BaselineAfter` | model-packs/assistant/domain-lib/affect_monitor.py:244-378 | from then on the baseline is the stored average of a constant reading |
| `Affect.UnchangingEvidenceFallsQuiet` | model-packs/assistant/domain-lib/affect_monitor.py:244-443 | from any start, while the evidence stays the same, the alarm is silent for good from a turn on that the evidence and the parameters determine |
| `Journal.EnvelopeNamesFurthest` | model-packs/assistant/domain-lib/affect_monitor.py:677-723 | the check fires iff the entry is mature and some axis is further out than allowed; it names a furthest axis, and another than valence only when strictly further |
| `Journal.EnvelopeSeesDeltas` | model-packs/education/controllers/journal_adapters.py:351-364 | with a distance that looks at residuals only, a mention is judged on its deltas, not on the learned mean or the turn's reading |
| `Journal.CheckShape` | model-packs/assistant/domain-lib/affect_monitor.py:612-664 | a check that fires is mature and on a run of its own direction |
| `Journal.State.EnvelopeLoop` | model-packs/education/controllers/journal_adapters.py:351-370 | the loop with early exit finds whether some mention breaks its envelope, and whether any baseline is mature |
| `Journal.State.ShapeLoop` | model-packs/education/controllers/journal_adapters.py:399-424 | the same for the nested loop over mentions and axes |
| `Journal.State.TierOne` | model-packs/education/controllers/journal_adapters.py:340-430 | the three tests in order decide tier 1 and maturity |
| `Journal.State.TierThree` | model-packs/education/controllers/journal_adapters.py:486-528 | the three valence tests in order decide whether the turn is critical |
| `Journal.State.CountConcerns` | model-packs/education/controllers/journal_adapters.py:439-460 | the loop counts the stored entities of concern |
| `Journal.State.Accumulate` | model-packs/education/controllers/journal_adapters.py:292-304 | the in-place update of the entity map |
| `Journal.State.Respond` | model-packs/education/controllers/journal_adapters.py:439-658 | the cascade: tier 3 before tier 2 before tier 1, with latches and the record written |
| `Journal.State.DomainStep` | model-packs/education/controllers/journal_adapters.py:219-658 | the mutated state and the decision equal one step of the machine |
| `JournalLaws.ElevatedMeans` | model-packs/education/controllers/journal_adapters.py:340-430 | a turn is elevated iff a mention leaves the learned envelope or rhythm or, without baselines, the reading is past a limit |
| `JournalLaws.TurnCountsIff` | model-packs/education/controllers/journal_adapters.py:340-437 | behind any run, exactly which turns raise the tier-1 count and the sustained count |
| `JournalLaws.ColdTurnCountsIff` | model-packs/education/controllers/journal_adapters.py:426-437 | without baselines that is a question of arousal and valence alone |
| `JournalLaws.WorseIsNoCalmer` | model-packs/education/controllers/journal_adapters.py:426-437 | lowering the valence of such a turn or raising its arousal never makes it calm |
| `JournalLaws.KnownTurnCountsIff` | model-packs/education/controllers/journal_adapters.py:340-430 | with a baseline the reading itself does not matter |
| `JournalLaws.QuietRunIsOk` | model-packs/education/controllers/journal_adapters.py:340-573 | a run within the limits that mentions nobody decides ok on every turn |
| `JournalLaws.CriticalMeans` | model-packs/education/controllers/journal_adapters.py:483-528 | exactly which turns are critical, by falls beyond the envelope, falling runs and the floor |
| `JournalLaws.AlertHasCause` | model-packs/education/controllers/journal_adapters.py:530-557 | the turn tier 3 fires on shows such a cause |
| `JournalLaws.ConcernMeans` | model-packs/education/controllers/journal_adapters.py:439-459 | exactly which entities are of concern |
| `JournalLaws.RecordOfAlert` | model-packs/education/controllers/journal_adapters.py:541-551 | the record of the alert, field by field |
| `Journal.CountersAreRecounts` | model-packs/education/controllers/journal_adapters.py:432-437 | over every run the sustained count is the trailing run of tier-1 turns after the warm-up, the tier-1 count their number |
| `Journal.AlertLatch` | model-packs/education/controllers/journal_adapters.py:530-540 | the tier-3 latch is up iff some earlier turn was due |
| `Journal.Tier3FiresFirst` | model-packs/education/controllers/journal_adapters.py:530-557 | tier 3 fires on the first turn that is due and on no other |
| `Journal.Tier3AtMostOnce` | model-packs/education/controllers/journal_adapters.py:530-557 | at most once in a run, after the warm-up, with a named safe person and an accepted handshake |
| `Journal.OptInLatch` | model-packs/education/controllers/journal_adapters.py:558-564 | the opt-in latch is up iff tier 2 fired before |
| `Journal.Tier2FiresOnce` | model-packs/education/controllers/journal_adapters.py:462-564 | tier 2 fires iff the history wants it, tier 3 does not take the turn, and it never fired before |
| `Journal.WarmUpIsInvisible` | model-packs/education/controllers/journal_adapters.py:306-315 | over every run, counters and alert are those of the run without its warm-up turns, and no tier fires on those |
| `Journal.AlertPossibleIff` | model-packs/education/controllers/journal_adapters.py:471-536 | some run fires tier 3 iff the configured cross-session count reaches the threshold: no turn raises it |
| `Journal.ShippedNeverAlerts` | model-packs/education/modules/general-education/module-config.yaml:15-20 | with the shipped count and threshold no run ever fires tier 3 or writes an escalation |
| `Journal.AdvisoryShownOnce` | model-packs/education/controllers/journal_adapters.py:254-283 | an advisory is shown on the first turn that offers one, and on no other |
| `Journal.AdvisoryLatch` | model-packs/education/controllers/journal_adapters.py:254-277 | the advisory flag is up iff some earlier turn offered one |
| `Journal.HistoryIsEnough` | model-packs/education/controllers/journal_adapters.py:539-573 | decisions and records do not depend on later turns |
| `Journal.NoEscalationBefore` | model-packs/education/controllers/journal_adapters.py:539-552 | nothing is recorded while tier 3 has not fired |
| `Journal.EscalationTellsHistory` | model-packs/education/controllers/journal_adapters.py:581-658 | the one record ever written goes to the named safe person and carries recounted aggregates of the history |
| `Journal.AlertWithoutRecord` | model-packs/education/controllers/journal_adapters.py:539-658 | the one alert is spent whether or not a record can be written; there is none iff there was no adapter or session at that turn |
| `Journal.MentionsAccumulate` | model-packs/education/controllers/journal_adapters.py:292-304 | the stored entities are those of one pass over all mentions, warm-up included |
| `Journal.StoredIsMean` | model-packs/education/controllers/journal_adapters.py:292-304 | turns, mean valence, mean arousal and first salience of an entity, over all its mentions |
| `Journal.EntityMeans` | model-packs/education/controllers/journal_adapters.py:292-304 | the same over every run of the machine |
| `ProfileBaseline.Profile.Serialize` | model-packs/education/controllers/education_profile_serializer.py:128-210 | the new baselines of the profile, and when there are none |
| `ProfileBaseline.Profile.UpdateEntities` | model-packs/education/controllers/education_profile_serializer.py:176-196 | the loop over the entities updates each independently of the order |
| `ProfileBaseline.BaselineNearExact` | model-packs/education/controllers/education_profile_serializer.py:48-91 | over every run of visits, to any modules and with any axes shown, an axis is within 0.000005 of the exact average of what was shown on it, and the count is the number of visits |
| `ProfileBaseline.SignaturesAreLast` | model-packs/education/controllers/education_profile_serializer.py:65-109 | after every run a module has a signature iff it was visited after the very first visit, and it is that of the last visit there |
| `ProfileBaseline.SignatureIsDampened` | model-packs/education/controllers/education_profile_serializer.py:87-109 | the delta of any signature is nine tenths of the distance to the previous baseline, to within two roundings |
| `ProfileBaseline.WrittenInRange` | model-packs/assistant/domain-lib/affect_monitor.py:472-578 | whatever the deltas, an entity's averages stay in range |
| `ProfileBaseline.NewEntry` | model-packs/assistant/domain-lib/affect_monitor.py:512-545 | how a new entity starts from the learner's baseline |
| `ProfileBaseline.KnownEntry` | model-packs/assistant/domain-lib/affect_monitor.py:546-578 | how a known one moves, each axis by its own delta, variance and rhythm |
| `ProfileBaseline.SmoothedSquare` | model-packs/assistant/domain-lib/affect_monitor.py:546-578 | what is smoothed into the variance is the square of the delta |
| `ProfileBaseline.SaveTouches` | model-packs/education/controllers/education_profile_serializer.py:149-196 | a save touches the baseline only when affect is shown, and an entity only when it is in the state |
| `ProfileBaseline.SaveIsVisit` | model-packs/education/controllers/education_profile_serializer.py:149-152 | a save that shows affect is one more visit of the run that the baseline is a function of |
| `ProfileBaseline.SaveSeedsByBaseline` | model-packs/education/controllers/education_profile_serializer.py:176-196 | an entity is updated from its own entry, and seeded by the baseline that the same save leaves |
| `ProfileBaseline.EntityHeldSinceFirst` | model-packs/education/controllers/journal_adapters.py:292-304 | an entity is in the state from its first mention on |
| `ProfileBaseline.SavesCountAsMentions` | model-packs/education/controllers/education_profile_serializer.py:171-196 | an entity's sample count is the number of saves since its first mention, however often it was mentioned |
| `ProfileBaseline.OneMentionMatures` | model-packs/education/controllers/education_profile_serializer.py:171-196 | one mention and enough later turns make a mature entry |
| `Session.DomainContext.SyncFrom` | src/lumina/api/session.py:146-153 | the session dictionary is copied back, its module key if it has one |
| `Session.SessionContainer.Prune` | src/lumina/api/session.py:395-401 | exactly the expired, inactive contexts are deleted |
| `Session.SessionContainer.GetContext` | src/lumina/api/session.py:385-434 | the whole call on an open session: served, refused or failed, and the new contexts, active domain and log |
| `Session.SessionContainer.EndTurn` | src/lumina/api/processing.py:667-675 | the active context gets the turn's task and one more turn; the others stay |
| `Session.SessionContainer.RebuildFor` | src/lumina/api/session.py:457-476 | a held context of the right user is replaced by a new one |
| `Session.GetKeepsContexts` | src/lumina/api/session.py:385-434 | exactly which contexts survive a call, and that a survivor is untouched unless hit through an alias, which resets its turns |
| `Session.RefusalChangesNothing` | src/lumina/api/session.py:408-415 | when a call is refused, when it fails, and that only expired contexts are gone then |
| `Session.SwitchIsLogged` | src/lumina/api/session.py:403-432 | a switch is logged iff another name than the active domain's is asked for and served |
| `Session.ServedIsActive` | src/lumina/api/session.py:403-434 | what is served is the active context, built exactly when it has to be |
| `Session.GetKeepsSound` | src/lumina/api/session.py:385-434 | one call keeps the active domain held and the number of contexts within the maximum |
| `Session.RunsStaySound` | src/lumina/api/session.py:385-454 | so does every run of calls, turns and rebuilds |
| `Session.ReturnFindsItUntouched` | src/lumina/api/session.py:403-407 | after any run that spares it, a held domain asked for by its own name has its task and turn count untouched |
| `Session.TurnsAreCounted` | src/lumina/api/processing.py:666-675 | over every run that otherwise spares it, a domain's turn count grows by the turns that ended while it was active |
| `Session.TurnIsWritten` | src/lumina/api/session.py:146-153 | what a turn leaves in the active context |
| `Session.CompletedIsFilled` | src/lumina/api/session.py:329-346 | which task a built context has, and its completed flag |
| `Session.RebuildRestarts` | src/lumina/api/session.py:466-471 | a rebuild restarts the context it is for, and touches nothing of another user or domain |
| `Session.RebuildPerformed` | src/lumina/api/session.py:457-476 | whose contexts a rebuild restarts and saves, and that nothing else changes |
| `Session.SwitchesReplay` | src/lumina/api/session.py:422-432 | the logged switches, replayed from the first domain, lead to the active one without a gap |
| `Session.ReopenedAsClosed` | src/lumina/api/session.py:436-454 | closing and reopening gives back turn count, specification and task of the domain |
| `Session.ReopeningForgetsOtherDomains` | src/lumina/api/session.py:436-452 | reopening leaves one saved context |
| `Session.RunsKeepSaved` | src/lumina/api/session.py:364-476 | over every run of calls on any sessions, every context in memory is saved exactly as it is held |
| `Session.GetSavesIff` | src/lumina/api/session.py:385-454 | a call that builds nothing saves nothing, and no call touches another session |
| `Session.TurnIsPerformed` | src/lumina/api/processing.py:666-675 | behind any run of calls, a turn of an open session is counted, held and saved |
| `Session.StoppingLosesNothing` | src/lumina/api/session.py:364-454 | a process that stops between two calls loses no turn: a session reopened in a domain it held goes on from where it was |
| `TaskGraph.Graph` | model-packs/assistant/controllers/runtime_adapters.py:425-510 | there is always at least one task |
| `TaskGraph.Interpret` | model-packs/assistant/controllers/runtime_adapters.py:466-510 | the validating loop and the one-task fallback |
| `TaskGraph.GraphIs` | model-packs/assistant/controllers/runtime_adapters.py:466-510 | tasks keep order and data, an id that is missing is the position, and no usable task makes a graph of one |
| `TaskGraph.PrimaryAt` | src/lumina/api/processing.py:481-484 | the first unblocked task, or the first one |
| `TaskGraph.Orchestrator.Walk` | src/lumina/api/processing.py:475-641 | the tasks run, in order, and the queue left behind; a greeting or an inspection denial, judged on the primary task, leaves both as they were |
| `TaskGraph.Orchestrator.RunSecondaries` | src/lumina/api/processing.py:615-629 | the walk runs the other unblocked tasks in list order |
| `TaskGraph.Orchestrator.CollectBlocked` | src/lumina/api/processing.py:630-641 | the blocked tasks in list order |
| `TaskGraph.DispatchedIsUnblocked` | src/lumina/api/processing.py:475-641 | the tasks run are exactly the unblocked ones, once each and in order, iff there is one and no other unblocked task shares the primary's id |
| `TaskGraph.EveryTaskOnce` | src/lumina/api/processing.py:475-641 | under exactly that condition every task is either run or deferred, once |
| `TaskGraph.OnlyPrimaryIsInspected` | src/lumina/api/processing.py:572-629 | past the gate, everything that is run is approved iff the unblocked tasks with other ids than the primary's are |
| `TaskGraph.FirstDispatchedAnyway` | src/lumina/api/processing.py:481-484 | with every task blocked the first is run and deferred |
| `TaskGraph.DistinctIdsSuffice` | src/lumina/api/processing.py:475-641 | distinct ids and one unblocked task are enough |
| `TaskGraph.UnnumberedTasksAllHandled` | model-packs/assistant/controllers/runtime_adapters.py:466-489 | an answer that numbers no task loses none |
| `TaskGraph.MadeUpIdCollides` | model-packs/assistant/controllers/runtime_adapters.py:481-487 | an answer whose second task is neither run nor deferred |
| `Migration.DomainFileIff` | scripts/migrate-ledger-tiers.py:75-103 | the file and tier of every record: the domain it names first, if it is a commitment and no system type, event or escalation, and otherwise its session's file |
| `Migration.Migrator.MigrateRecord` | scripts/migrate-ledger-tiers.py:197-203 | a record is skipped or appended, and counted |
| `Migration.Migrator.MigrateFile` | scripts/migrate-ledger-tiers.py:172-203 | the loop over one file; a dry run writes nothing |
| `Migration.Migrator.Run` | scripts/migrate-ledger-tiers.py:145-203 | the nested loops migrate all records in order |
| `Migration.EveryRecordCounted` | scripts/migrate-ledger-tiers.py:164-203 | counted plus skipped equals read; a dry run counts at least as many per tier |
| `Migration.CountedWhereWritten` | scripts/migrate-ledger-tiers.py:178-203 | each record counts as skipped iff its id is in its target, and else under the tier of its file |
| `Migration.FilesCounted` | scripts/migrate-ledger-tiers.py:164-168 | each legacy file with a record in it counts one |
| `Migration.FlatConcat` | scripts/migrate-ledger-tiers.py:164-173 | records are migrated in the order of the files and within them |
| `Migration.OldContentsKept` | scripts/migrate-ledger-tiers.py:126-130 | old contents of every target are a prefix of the new |
| `Migration.EveryIdArrives` | scripts/migrate-ledger-tiers.py:164-203 | every legacy record's id is in its target afterwards |
| `Migration.GainedAreNew` | scripts/migrate-ledger-tiers.py:195-203 | a target gains only records placed there, none with an id it already had |
| `Migration.InterruptedRunResumes` | scripts/migrate-ledger-tiers.py:164-203 | an interrupted run started again ends like an uninterrupted one |
| `Migration.IdempotentIffIdentified` | scripts/migrate-ledger-tiers.py:164-203 | migrating twice is migrating once iff every legacy record has an id |
| `Persona.Made` | model-packs/assistant/domain-lib/persona_engine.py:159-162 | every persona has a known archetype and an intensity between 0 and 1 |
| `Persona.IsSafe` | model-packs/assistant/domain-lib/persona_engine.py:400-427 | the scan with early exit accepts iff no trait holds an unsafe pattern and no behaviour is on the list |
| `PersonaLaws.SafeMeansHarmless` | model-packs/assistant/domain-lib/persona_engine.py:400-427 | which is that no lower-cased trait is an unsafe pattern with text around it, and no lower-cased behaviour is listed |
| `Persona.UpdatePersona` | model-packs/assistant/domain-lib/persona_engine.py:317-363 | the updated persona, or that the update raises |
| `Persona.UpdateTakesGiven` | model-packs/assistant/domain-lib/persona_engine.py:317-363 | what is given replaces, what is absent stays, bounds are kept, limits only grow |
| `PersonaLaws.TurnStores` | model-packs/assistant/controllers/runtime_adapters.py:320-338 | a turn stores its update iff that is harmless and complete; exactly when it raises |
| `PersonaLaws.RunStores` | model-packs/assistant/controllers/runtime_adapters.py:320-338 | so behind any run too |
| `PersonaLaws.StaysHarmless` | model-packs/assistant/controllers/runtime_adapters.py:320-338 | from a harmless persona every run stores only harmless ones |
| `Persona.GateJudgesWhatIsStored` | model-packs/assistant/controllers/runtime_adapters.py:325-331 | the judged persona is safe iff the stored one is, although they are built differently |
| `Persona.MergeKeeps` | model-packs/assistant/domain-lib/persona_engine.py:347-352 | old limits stay a prefix, and the merge holds exactly the old and the new ones |
| `Persona.MergeAddsOnce` | model-packs/assistant/domain-lib/persona_engine.py:347-352 | what is added is new and added once |
| `Persona.BuildOverlay` | model-packs/assistant/domain-lib/persona_engine.py:227-314 | the overlay, part by part |
| `PersonaLaws.OverlayShows` | model-packs/assistant/domain-lib/persona_engine.py:243-314 | when an overlay is shown, and its tone and intensity |
| `PersonaLaws.NameIsShown` | model-packs/assistant/domain-lib/persona_engine.py:299-301 | the directive opens with the name |
| `PersonaLaws.StyleIsShown` | model-packs/assistant/domain-lib/persona_engine.py:257-297 | every trait, behaviour and hint is written out in an overlay that is shown |
| `PersonaLaws.JoinedConcat` | model-packs/assistant/domain-lib/persona_engine.py:259-301 | joining puts the separator between neighbours and nowhere else |
| `PersonaLaws.CustomDirective` | model-packs/assistant/domain-lib/persona_engine.py:259-301 | the directive of a custom style in full, where there is nothing else to say |
| `PersonaLaws.ArchetypeDirective` | model-packs/assistant/domain-lib/persona_engine.py:271-301 | and that of an archetype |
| `Persona.OverlayKeepsCap` | model-packs/assistant/domain-lib/persona_engine.py:366-397 | the overlay's intensity keeps to the module's cap iff the cap is not negative; nothing else changes |
| `Persona.LimitsReachTheDirective` | model-packs/assistant/domain-lib/persona_engine.py:244-287 | a hard limit is written out in the directive iff the persona is not neutral by default |
| `Persona.Assistant.DomainStep` | model-packs/assistant/controllers/runtime_adapters.py:320-338 | the stored persona and the overlay after a turn, exactly when the turn raises, and that a raising turn changes neither |
| `Persona.OneTurnIsSafe` | model-packs/assistant/controllers/runtime_adapters.py:320-338 | one turn keeps a safe persona safe |
| `Persona.OneTurnKeepsLimits` | model-packs/assistant/domain-lib/persona_engine.py:347-352 | one turn keeps every hard limit in place |
| `Persona.StaysSafe` | model-packs/assistant/controllers/runtime_adapters.py:320-338 | from a safe persona every run stores only safe personas |
| `Persona.LimitsOnlyGrow` | model-packs/assistant/controllers/runtime_adapters.py:320-338 | the limits of any moment are a prefix of those of any later one |
| `Persona.AcceptedLimitIsKept` | model-packs/assistant/controllers/runtime_adapters.py:320-338 | a limit once accepted is in every directive from then on, in any module, iff the persona shown there is not neutral by default |

## Left out

- Session.SessionContainer.GetContext: building a context is one input of the call (what it yields, or that it raises); profiles, orchestrators, policy checks and time stamps of a context are not modelled, and the dictionary of all sessions is a map of values, so aliasing between sessions is not captured.
- Session.DomainContext.SyncFrom: the time a task was presented at is not modelled.
- Session.RunsKeepSaved: a failure while the log or the saved state is written, a turn that raises after it changed the held task in place, and standing-order attempts are not modelled; calls follow one another.
- LedgerFile.RunOfCommands: stated for files whose lines, where they are JSON, are dictionaries; `LedgerFile.LedgerFile.Run` and `LedgerFile.LedgerDirectory.FreezeAll` say what the commands do to any file. Text is written with POSIX line ends.
- LedgerFile.LoadLedger: a line with an escaped lone surrogate counts as unreadable (the source loads it and cannot hash it), and integers of more than 4300 digits, which Python refuses, are read.
- LedgerFile.FindPrior: subject ids are compared as JSON values; Python's equality also identifies True with 1 and 1 with 1.0, and NaN with nothing.
- ManifestLaws.AddedEntries: the command that adds discovered YAML files, which writes comment, blank and further field lines around each entry, is not modelled.
- ManifestLaws.RegenThenCheck: a listed path that is a directory is not modelled. Text is decoded with universal line ends and written with POSIX ones; bytes that are not UTF-8 are not modelled.
- AlgebraLaws.EvalSpelledSide: stated for texts in the grammar of signed terms; what the scanner makes of other text (two letters in a row, two points, a doubled sign) is in `AlgebraTools.EvalSide`, but no law is stated for it. Digits are the ten ASCII ones.
- AlgebraTools.ParseSteps: takes the list of steps as input; splitting the work into steps, naming operations and `step_count`, `method_recognized` rest on regular expressions and keyword tables.
- Affect.RoundingErrorBounded: the rhythm fields, the per-module signatures of the assistant and `spectral_history`, which `update_baseline` does not carry over, are not modelled. Reals stand for IEEE doubles everywhere.
- Journal.EnvelopeNamesFurthest: the z-score is an arbitrary function, since `lumina.signals` is not part of this model; an entry of the baseline has all its fields; `min_crossing_rate` is positive, since otherwise the shape check can divide by zero.
- Journal.State.Respond: a failure while the record is written is not modelled; its fields besides target and aggregates are in `JournalLedger`.
- Journal.AdvisoryShownOnce: which advisory is pulled, and pruning expired ones from the profile, are inputs.
- ProfileBaseline.Profile.Serialize: time stamps, `session_state` and the module snapshot are left out here (`LearningState` has the part that is read back); the rhythm update is an arbitrary function.
- TaskGraph.Orchestrator.Walk: what a dispatched task does to the orchestrator's state is not modelled, `normalize_turn_data` is applied beforehand, and the payload that the inspection may sanitise is passed on as it is. No code reads the `pending_tasks` queue.
- Migration.Migrator.Run: the target files are lists of records, framed as in `LedgerFile`; ids that make two target paths coincide are not considered.
- Persona.StaysSafe: starts from a safe persona, because the state builder does not run the gate on a stored one; values of the wrong JSON type are not considered; lower-casing is an arbitrary function.
- LearningState.RestartsAreUnobservable: a restart goes through the database; without one the serialiser writes the profile's `modules` entry, which the state builder never reads, so the rebuilt state is that of a first session. Stored documents have values of the types that the serialiser writes; world-simulation and other optional attributes are not modelled.
- Language-model calls, HTTP routes, the front end, orchestrator internals, persistence adapters, the TTL manager, the domain registry: input and output, or arbitrary functions and nondeterministic inputs here.
- Pending tool calls and trip planning in the assistant's `domain_step`, vocabulary growth, dashboards, the command line of each script: they would only add easy members.
