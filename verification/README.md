# Verification of the feature flag service

This project models the transactional core of the feature flag, user and experiment
services in Dafny, with the audit log that must accompany every change, and proves what that
core promises. It has two layers that share one set of definitions.

* **The services as code.** `Databases.dfy` is the database: committed tables, at most one
  open transaction, and an oracle that can make any call to it fail. The stores
  (`FlagStores`, `UserStores`, `ExperimentStores`, `AuditStores`), the services
  (`FlagServices`, `UserServices`, `ExperimentServices`) and `Resolvers` are classes whose
  methods follow the source statement by statement. Each of them is proved against
  `Protocol.Serial`: without a fault a mutation does exactly what `Serial` says, and with a
  fault anywhere it fails and commits nothing.
* **The running system.** `Interleaving.dfy` lets any number of mutations and
  `getAssignment` calls interleave, one statement at a time, under READ COMMITTED (section
  13.2.1 of the PostgreSQL documentation): every statement sees the committed rows overlaid
  with its transaction's own writes, waits for row locks and unique keys that other
  transactions hold, and can fail. `Solo.dfy` proves that an uninterrupted mutation or call of
  this machine ends as the serial one does, so the theorems about runs also hold for the services, and
  `SerialRuns.dfy` draws that conclusion.

What every operation does is stated once more without the plans the services follow, case by
case on the fields a client sends: `FlagOutcomes`, `UserOutcomes` and `ExperimentOutcomes` say
when each mutation is refused and with which error, what is stored when it is not, and that
nothing else changes.

Main results about all runs of the machine, with a failure possible at every statement:

* the tables always keep the schema's constraints (`Reachable.GoodAlways`);
* every commit brings exactly one audit row with its entity, id, action and actor, nothing
  else writes audited tables, and no flag, user or experiment changes without a row that
  names it (`AuditTrail`);
* the audit rows, in commit order, replay as a sensible story whose survivors are exactly the
  rows that exist; read by the texts of their ids they do so if and only if no user was
  deleted under another spelling of the id (`LifeStory`);
* of the creates that compete for one key at most one commits while no mutation commits that
  can free the key, and the others learn of the duplicate or met a fault (`CreateRaces`);
* all callers of `getAssignment` for one user and experiment get one variant (`Stickiness`),
  with the exact condition under which this holds for callers that spell the user's id
  differently (`SpellingRace.StickyIff`); callers that name other users may do so in any texts;
* every visible experiment has non-negative weights summing to 100 (`Shares`), although the
  sum is taken in a wrapping machine int (`Weights.ValidationExactIff`), and the variant stored
  for an unassigned user is the one into whose share of 100 the user's hash falls
  (`NeverLost.StoresByShare`);
* stored rules match their flag's strategy as long as updates of one flag do not overlap
  (`StrategyMatch`). Any number of overlapping updates of one flag keep this in every run,
  whatever else runs, if and only if no two of them clash: one brings rules, and the other
  would leave the flag with another strategy, from the strategy it has or from none once a
  third has cleared it (`Clashes`, `Contests`, `ClashRuns.KeepMatchIff`). Outside any
  transaction, in a service built without an audit store, a fault between the two writes of an
  update can break it as well (`HalfUpdates`);
* an evaluation reads the flag and then its rules, with nothing to hold the two reads together
  (`Readers`). It answers as if it had read once, and means what its rules say (`Evaluation`),
  if no mutation aimed at its flag commits between the reads; it is never disturbed by
  mutations aimed elsewhere, and never answers true for a flag without an update row
  (`RolloutHistory`). One mutation aimed at the flag, whatever runs elsewhere, gives every
  evaluation of it the answer of before or after if and only if it tears nothing. A delete
  tears nothing if the flag answered true anyway. An update tears nothing unless it disables a
  flag that has a strategy and either clears the rules of a flag that did not answer true, or
  brings a rule that says neither no nor what the flag said before
  (`WholeAnswers.AlwaysWholeIff`, with the torn runs in `TornReads`).

Two parts stand alone: the audit query builder with paging (`AuditQueries`, `AuditPaging`),
and the bounded history of coverage snapshots (`Snapshots`, `SnapshotStores`).

Where the source's documents and its code differ, the model follows the code:

* README.md lines 109-115 promise an audit trail for every change. That is proved, but an
  entry written by `DeleteUser` holds the id in the spelling the client sent, which need not
  be the canonical one (`LifeStory.RespelledEntry`).
* Assignments are meant to be sticky per user. They are sticky per user and spelling: the
  bucket is computed from the text of the user id, and PostgreSQL accepts several spellings
  of one UUID (`SpellingRace.StickyIff`).
* An evaluation is meant to say whether a flag is on. A delete between its two reads makes it
  answer true for a flag that answered false before and is gone after
  (`TornReads.DeleteAnswersTrue`), and two updates between them make it skip every rule and
  answer true (`TornReads.TwoUpdatesFallThrough`).
* Pages of the audit log are ordered by `created_at` alone. They hold every row once if and
  only if no two rows of one time lie on both sides of a page boundary
  (`AuditPaging.PagingIff`).

Assumptions: a failed commit has applied nothing, and generated ids are new. The results on
weights also take every variant list to be shorter than 2^33 + 5 entries, the exact bound up
to which the wrapped sum cannot pass for 100; the request body limit of one MiB
(`internal/app/app.go:52`) keeps lists far below it.

`dafny verify dfyconfig.toml` checks the whole project.

## Model

| member | source | states |
|---|---|---|
| Schema.FindFlag | internal/flags/postgres.go:69-89 | the row found has the key and environment asked for, and none found means no such row |
| Schema.VariantsOf | internal/experiments/postgres.go:120-141 | the variants of one experiment, each once, in the order of their ids, as stored |
| Schema.RulesInIdOrder | internal/flags/postgres.go:108-129 | the rules of a flag, each once, in the order of their ids, as stored |
| Statements.ExecKeepsConsistent | internal/db/schema.go:5-72 | no insert, update, delete or cascade of the stores breaks a UNIQUE, CHECK or FOREIGN KEY constraint |
| Statements.UpsertKeepsConsistent | internal/experiments/postgres.go:160-171 | the upsert of an assignment keeps the composite foreign key to the variant's experiment |
| Auth.RequireRole | internal/auth/auth.go:31-42 | a request passes exactly when it has claims with an allowed role, and yields their subject; otherwise unauthorized without claims, forbidden with them |
| Auth.ActorIdFromContext | internal/auth/auth.go:50-53 | the stored actor, and none when it is missing or empty |
| FlagRules.ValidateRulesSameType | internal/flags/service.go:381-396 | the common type of the rules, nil inputs included, or the list of types when two differ |
| FlagRules.RuleInputsToRules | internal/flags/service.go:408-421 | nil inputs are dropped and the order is kept |
| FlagRules.RowsKeepType | internal/flags/service.go:381-421 | inputs that validate to one type become rows of that type |
| Weights.MachineSumWraps | internal/experiments/service.go:128-136 | the accumulated 64-bit sum is the mathematical sum modulo 2^64 |
| Weights.ValidateVariantWeights | internal/experiments/service.go:124-142 | the verdict on a list: empty, first negative weight with the sum and weights so far, or wrong sum |
| Weights.AcceptedSumIsExact | internal/experiments/service.go:124-142 | accepted weights that fit the INTEGER column sum to exactly 100 for fewer than 2^33 + 5 variants |
| Weights.WrongSumAccepted | internal/experiments/service.go:128-139 | from 2^33 + 5 variants on there is a list whose wrapped sum passes for 100 |
| Weights.ValidationExactIff | internal/experiments/service.go:124-142 | validation is exact for lists of n variants if and only if n is below 2^33 + 5 |
| Weights.PickByWeight | internal/experiments/service.go:263-273 | the cumulative loop selects the specified index |
| Weights.PickIff | internal/experiments/service.go:263-273 | a variant is selected for exactly the buckets of its cumulative range |
| Weights.ExactApportionment | internal/experiments/service.go:263-273 | each variant gets exactly its weight in buckets, a zero weight none, and the fallback is never needed |
| Weights.AssignedByShare | internal/experiments/service.go:263-279 | with weights that share out 100, variant i is the answer if and only if the hash modulo 100 lies from the sum of the weights before it to that sum plus its own |
| Weights.AssignedShare | internal/experiments/service.go:263-279 | of the hash values 0 to 99 exactly as many answer a variant as its weight says |
| Weights.AssignVariantByWeight | internal/experiments/service.go:263-279 | the method answers the variant of the share of the hash modulo 100 |
| Protocol.NotFoundIsRoot | internal/users/service.go:258-267 | errors.As finds a not-found error exactly when it is the innermost cause |
| Protocol.RunThenLast | internal/flags/service.go:172-190 | an update runs its rule statements first and the flag row on what they leave |
| Protocol.ChildrenKeepParents | internal/flags/service.go:122-130 | persisting rules or variants changes no flag, user or experiment row |
| Protocol.WorkTarget | internal/flags/service.go:172-190 | the row a mutation worked on is the flag found under its key, or exists when the mutation is done |
| Protocol.SerialLogsOnce | internal/audit/tx_write.go:11-33 | a committed mutation appends exactly one audit row: its entity, the id it answers, the flag it found or the text DeleteUser was given, its action and actor; only DeleteUser can end without doing anything |
| Transactions.SeesOwnWrites | internal/audit/tx_write.go:11-33 | a transaction sees exactly the effect of its own uncommitted statements |
| Transactions.TouchesNothingNew | internal/flags/postgres.go:146-164 | a statement writes no id but those its transaction sees and the one it generates |
| Merging.UniqueMerge | internal/db/schema.go:15-24 | two transactions that keep a key unique each for itself keep it unique together |
| Merging.MergeKeepsConsistent | internal/db/schema.go:5-72 | committing one of two transactions with disjoint locks leaves the other's view consistent |
| Isolation.DecideOk | internal/flags/service.go:81-120 | what a mutation decides from its reads is a plan on one target row and its children |
| Isolation.RecordStaysOnTarget | internal/flags/service.go:172-190 | each statement keeps an open transaction on its target row and schedule |
| Reachable.GoodAfterStep | internal/flags/service.go:133-170 | every step of every participant keeps the system invariant |
| Reachable.GoodAlways | internal/db/schema.go:5-72 | in every run the tables keep all constraints, as does every open transaction's view |
| AuditTrail.CommitStepIsAudited | internal/flags/service.go:153-168 | a commit changes its target and children only and appends the one row that names them |
| AuditTrail.OtherStepsWriteNothing | internal/flags/service.go:146-151 | steps other than a commit change no table, except that a stored assignment changes assignments |
| AuditTrail.EveryCommitIsAudited | internal/flags/service.go:133-170 | in every run committed transactions and appended audit rows match one to one in commit order, with entity, id, action and actor |
| AuditTrail.ActorWasAllowed | transport/graphql/flags.resolvers.go:18-45 | the actor of each row is the non-empty subject of claims whose role was allowed for that mutation |
| AuditTrail.LogGrows | internal/audit/postgres.go:52-72 | audit rows are never changed or removed |
| AuditTrail.NoSilentChange | README.md:109-115 | if an entity differs between any two points of a run, a row appended between them names it |
| LifeStory.LogTellsWhoLives | internal/flags/postgres.go:92-143 | in commit order each entity is created at most once, updated and deleted only while alive, and the replayed survivors are the existing rows |
| LifeStory.TextReplayIff | internal/users/service.go:233-247 | a log that makes sense by its ids makes sense by their texts exactly if every row spells its id canonically, and then tells the same |
| LifeStory.TextStoryIff | internal/users/service.go:233-247 | in every run the log, read by texts, makes sense and tells who lives if and only if no committed DeleteUser was given another spelling |
| LifeStory.RespelledEntry | internal/users/service.go:218-256 | a run in which a user is deleted under another spelling, whose entry names nobody by its text |
| Races.LoserGetsDuplicate | internal/flags/service.go:324-333 | a create whose key is taken commits nothing and gets the duplicate error in its chain, from the check or from the constraint |
| Races.HolderIsAlone | internal/flags/postgres.go:54-60 | from its insert on a creator is alone with its key, among committed rows and open transactions |
| Races.GoneMeanwhile | internal/flags/postgres.go:92-143 | a statement whose row another transaction has deleted meanwhile ends its mutation as not found by the row's id, and deleteUser without an error |
| CreateRaces.OneCreateWins | internal/flags/service.go:324-333 | in a run in which no mutation commits that can free the key at most one create for it commits, and every other one that could have succeeded and has ended failed with the duplicate in its chain or with a fault |
| CreateRaces.OneWinsUnlessFreed | internal/flags/service.go:324-333 | the same in a run in which no committed write takes the key from its row, so also with updates of users that leave their emails |
| CreateRaces.WhoFrees | internal/flags/postgres.go:92-143 | a flag's key is freed only by a delete aimed at it, an email only by an update or delete of the user who has it, an experiment's key by nothing |
| Evaluation.EvaluationMeansItsRules | internal/flags/service.go:234-256 | on matched tables: missing or disabled false, no rules true, percentage by the rule of least id, attribute by a left-to-right OR that stops at a match or an invalid rule |
| Evaluation.EvaluationMeansItsStrategy | internal/flags/service.go:234-256 | on any tables, matched or not: rules of another type than the strategy are passed over; the first percentage rule decides, attribute rules are a left-to-right OR |
| Evaluation.AttributeOrderIrrelevant | internal/flags/service.go:460-474 | no two orders of attribute rules answer true and false, and valid rules answer the same in every order |
| Evaluation.AttributeOrderSameIff | internal/flags/service.go:460-474 | attribute rules answer the same in every order exactly when all rules that do not say no say the same |
| Evaluation.PercentageOrderIrrelevantIff | internal/flags/service.go:446-458 | percentage rules answer the same in every order exactly when all give one verdict |
| Evaluation.AttributeRuleIff | internal/flags/attribute.go:25-74 | which field of the context each attribute name reads, when an attribute rule matches it, by text ends, membership and equality, and when a rule is invalid and why |
| Evaluation.PercentageRuleIff | internal/flags/service.go:476-493 | a percentage rule is valid from 0 to 100, lets in exactly that many of 100 buckets, and says why it is invalid |
| Readers.ReadersOnlyRead | internal/flags/service.go:234-256 | evaluations beside the transactions change no run of them |
| Readers.AnswersAreTwoReads | internal/flags/service.go:239-256 | in every run the answer of each evaluation comes from the flag at the time of its first read and the rules at the time of its second |
| RolloutHistory.TrueHasUpdateEntry | internal/flags/service.go:81-95 | starting with no flag enabled, a flag that any evaluation answers true for had an update row in the log at its first read |
| RolloutHistory.CommitKeepsOtherAnswers | internal/flags/service.go:172-190 | a commit aimed at one key and environment changes no answer for any other, on whichever side of it the two reads fall |
| RolloutHistory.QuietAnswer | internal/flags/service.go:239-256 | an evaluation between whose reads no mutation aimed at its flag commits answers as one read at any time between them |
| RolloutHistory.AnswerStaysUntilAimedAt | internal/flags/service.go:133-293 | in every run each evaluation answers as at the start until a mutation aimed at its flag commits |
| RolloutHistory.NewFlagInheritsNothing | internal/db/schema.go:13-28 | a created flag has only the rules its own transaction inserted |
| Shares.VisibleWeightsSumTo100 | internal/experiments/service.go:106-142 | in every run each visible experiment has variants with non-negative weights summing to 100 |
| Shares.VariantsNeverChange | internal/experiments/service.go:173-188 | a commit leaves the variants of every existing experiment as they were |
| Stickiness.CallersGetOneVariant | internal/experiments/service.go:204-239 | in every run, whoever else calls in whatever texts, all answered calls for one user and experiment have one variant, if the texts naming this user agree on it |
| Stickiness.RowNeverChanges | internal/experiments/postgres.go:160-171 | in such a run a stored assignment of the user keeps its value while the user exists |
| SpellingRace.SpellingsCanDiffer | internal/experiments/service.go:204-239 | a run in which two spellings of one user id get two variants |
| SpellingRace.StickyIff | internal/experiments/service.go:204-239 | callers that name a user in two spellings always get one variant, whoever else calls, if and only if both spellings select the same one |
| NeverLost.NoCallLosesItsVariant | internal/experiments/service.go:252-259 | no call ends for want of variants or with a stored variant that is not listed, and a call that is about to store holds the variant of the user's share |
| NeverLost.StoresByShare | internal/experiments/service.go:204-239 | in every run the variant a call stores for an unassigned user is the one into whose share of 100 the hash of the user's text and the experiment falls, and a failing store changes nothing |
| StrategyMatch.RulesMatchStrategy | internal/flags/service.go:203-226 | while updates of one flag do not overlap, every stored rule's type maps to its flag's strategy |
| StrategyMatch.AnswerMeansItsRules | internal/flags/service.go:234-256 | in every such run an evaluation has the simple meaning of its flag and rules, if no mutation aimed at the flag commits between its reads |
| UpdateCommits.CommitMatchedIff | internal/flags/service.go:172-226 | a commit on matched tables leaves them matched if and only if, being an update, no surviving rule of its flag asks for another strategy than it writes |
| UpdateCommits.AlwaysMatchedIff | internal/flags/service.go:172-226 | in any run rules match strategies in every state if and only if at each commit of an update no surviving rule of its flag asks for another strategy |
| Clashes.ClashOneWayIff | internal/flags/service.go:203-226 | two inputs clash exactly if the flag takes both, they leave it with different strategies, and one brings a rule |
| Contests.NoClashKeepsMatch | internal/flags/service.go:172-226 | any number of updates of a flag that do not clash keep its rules matched in every state of every run, beside any mutations aimed elsewhere, calls and faults |
| ClashRuns.ClashBreaks | internal/flags/service.go:172-226 | any two updates that clash have a run, from any state at rest, in which both commit and leave rules that do not match; the second one's DELETE does not see the rules the first has committed |
| ClashRuns.KeepMatchIff | internal/flags/service.go:172-226 | from a matched flag with nothing running, any number of updates of it keep its rules matched in every run, whatever runs besides, if and only if no two of them clash, on the strategy the flag has or on none once a third has cleared it |
| ClashRuns.TwoUpdatesIff | internal/flags/service.go:172-226 | two updates keep the flag matched in every run if and only if neither clashes with the other on the strategy the flag has |
| ClashRuns.OverlapBreaksMatch | internal/flags/service.go:172-226 | two overlapping updates of a flag without rules, both committed, leave it with rules that do not match its strategy |
| TornReads.DeleteAnswersTrue | internal/flags/service.go:239-253 | an evaluation between whose reads its enabled flag is deleted answers true, although the flag is gone |
| TornReads.UpdateTears | internal/flags/service.go:239-256 | an update that disables a flag and brings a rule which says neither no nor what the flag said before has a run in which an evaluation answers neither way |
| TornReads.TwoUpdatesFallThrough | internal/flags/service.go:446-458 | two updates between the reads make the evaluation skip all rules and answer true, although neither leaves a state that does |
| AmongOthers.SteadyAlways | internal/flags/service.go:133-293 | in every run in which one mutation is aimed at a flag and any others at other flags, the flag is as at the start until that mutation commits and then as its commit leaves it: gone, or with the new row and exactly the rules it brings or keeps |
| WholeAnswers.ReadsAreWhole | internal/flags/service.go:239-256 | with one mutation aimed at the flag that tears nothing, reads of it at any two times of any run give the answer of the tables at one of them |
| WholeAnswers.AlwaysWholeIff | internal/flags/service.go:234-293 | every evaluation of a flag, in every run in which one mutation is aimed at it and any others elsewhere, answers as the tables at one of its reads if and only if the mutation tears nothing |
| Databases.Database.Execute | internal/flags/postgres.go:92-105 | a statement takes effect in the open transaction or at once, or fails and leaves the committed tables alone |
| Databases.Database.Commit | internal/flags/service.go:164-168 | a commit installs what the transaction staged, or fails and applies nothing |
| FlagStores.FlagStore.Create | internal/flags/postgres.go:45-65 | the inserted row with its new id, a duplicate error for a unique violation, any other error wrapped |
| FlagStores.FlagStore.GetByKeyAndEnvironment | internal/flags/postgres.go:69-89 | the flag or none, an error only on failure |
| FlagStores.FlagStore.Update | internal/flags/postgres.go:92-105 | the row replaced, or not-found when no row was hit |
| FlagStores.FlagStore.GetRulesByFlagId | internal/flags/postgres.go:108-129 | the flag's rules in the order of their ids |
| FlagStores.FlagStore.Delete | internal/flags/postgres.go:133-143 | the flag and its rules gone, or not-found |
| FlagStores.FlagStore.ReplaceRulesByFlagId | internal/flags/postgres.go:146-184 | the delete and the inserts take effect together, in the open transaction or in one of its own, and the self-call ends |
| FlagStores.ScanRules | internal/flags/postgres.go:117-128 | the row loop lists the rules of the flag in id order |
| RuleReplacement.ReplacesExactly | internal/flags/postgres.go:146-164 | after a replacement the flag has exactly the given rules as a multiset, other flags' rules and tables are untouched, and it fails exactly on rows the schema refuses |
| RuleReplacement.ReplaceStandalone | internal/flags/postgres.go:146-184 | whichever call fails the flag keeps its old rules; on success it has exactly the given ones |
| UserStores.UserStore.Create | internal/users/postgres.go:39-57 | the inserted row, a duplicate error for a unique violation, any other error wrapped |
| UserStores.UserStore.GetById | internal/users/postgres.go:74-91 | the user or none; a text that is no UUID is an error |
| UserStores.UserStore.GetByEmail | internal/users/postgres.go:94-107 | the user with the email or none |
| UserStores.UserStore.Update | internal/users/postgres.go:110-123 | the row replaced, or not-found; a taken email is a plain database error |
| UserStores.UserStore.Delete | internal/users/postgres.go:126-136 | the user and the assignments gone, or not-found |
| ExperimentStores.ExperimentStore.CreateExperiment | internal/experiments/postgres.go:54-70 | the inserted row, or a duplicate error for a unique violation |
| ExperimentStores.ExperimentStore.BeginTx | internal/experiments/postgres.go:42-51 | a transaction, or an error on a store that is already bound to one |
| ExperimentStores.ExperimentStore.CreateVariant | internal/experiments/postgres.go:105-117 | the inserted row, or the database error wrapped |
| ExperimentStores.ExperimentStore.GetVariantsByExperimentId | internal/experiments/postgres.go:120-141 | the experiment's variants in id order |
| ExperimentStores.ScanVariants | internal/experiments/postgres.go:129-140 | the row loop lists the variants in id order |
| ExperimentStores.ExperimentStore.GetAssignment | internal/experiments/postgres.go:144-157 | the stored variant or none |
| ExperimentStores.ExperimentStore.UpsertAssignment | internal/experiments/postgres.go:160-171 | the assignment stored, or nothing changed |
| AuditStores.AuditStore.Create | internal/audit/postgres.go:52-72 | one row appended, or nothing |
| AuditStores.AuditStore.BeginTx | internal/audit/postgres.go:40-45 | a transaction, or an error on a store that is already bound to one |
| AuditStores.PrepareWriteTx | internal/audit/tx_write.go:11-33 | without an actor nothing is begun; otherwise the actor, an open transaction and a store bound to it |
| AuditStores.LogAndCommit | internal/flags/service.go:153-168 | the audit row and the transaction's writes are committed together, or nothing is |
| FlagServices.FlagService.CreateFlag | internal/flags/service.go:42-79 | with audit the serial outcome, or with any fault an error and nothing committed, and no call at all without an actor; without audit the same writes and no audit row, and with a fault the bare flag exactly if the fault came after its insert |
| FlagServices.FlagService.CreateFlagWithStore | internal/flags/service.go:81-105 | check, strategy, insert and rules as planned, and the flag returned is the one stored |
| FlagServices.ResolveCreateStrategy | internal/flags/service.go:107-120 | the strategy of the rules, or without rules the one asked for; refused exactly when the kinds of the rules differ or contradict it, with the error that says so |
| FlagServices.FlagService.UpdateFlag | internal/flags/service.go:133-170 | with audit the serial outcome, or with any fault an error and nothing committed; without audit the same writes, and with a fault the replaced rules exactly if the fault came after them |
| FlagServices.FlagService.UpdateFlagWithStore | internal/flags/service.go:172-190 | lookup, rules and row as planned, and the flag returned is the one stored |
| FlagServices.FlagService.ApplyRulesUpdate | internal/flags/service.go:203-226 | the strategy set on the flag and the rules replaced, kept, cleared or refused, by what the update brings |
| FlagPlans.UpdateFlagWork | internal/flags/service.go:172-226 | an update's outcome statement by statement: strategy first, then rules, then the row |
| FlagOutcomes.CreateFlagOutcome | internal/flags/service.go:81-131 | createFlag on the input's own constructors: refused, in this order, for a stored key, rules of different kinds, rules against the strategy asked for, with which error; otherwise a disabled flag with the strategy of its rules or the one asked for, exactly the given rules in order, one audit row, and nothing else changed |
| FlagOutcomes.UpdateFlagOutcome | internal/flags/service.go:172-226 | updateFlag: dev by default, not found, refused rules with which error; otherwise enabled as asked, strategy and rules kept, cleared or replaced by exactly the given ones in order, one audit row, and nothing else changed |
| FlagOutcomes.DeleteFlagOutcome | internal/flags/service.go:295-304 | deleteFlag: not found, or the flag and its rules gone, one audit row, and nothing else changed |
| FlagOutcomes.RowsAreGiven | internal/flags/service.go:398-421 | the rule rows are the inputs that are not nil, in order, with their kind and value |
| FlagPlans.CreateHalfway | internal/flags/service.go:81-105 | once its row is in, a new flag's rules are never refused, so only a fault can leave it without them |
| FlagPlans.UpdateHalfway | internal/flags/service.go:172-190 | once its rules are in, an update's flag row is never refused |
| FlagPlans.ReplacementNumbers | internal/flags/postgres.go:146-164 | after a replacement the flag's old rules are gone and the new ones stand under the next ids, row by row |
| HalfUpdates.HalfUpdateMatchedIff | internal/flags/service.go:134-140 | without audit, a fault between the two writes of an update leaves rules and strategy matched if and only if the update brings no rule or the flag already has their strategy |
| HalfUpdates.StopsBeforeRow | internal/flags/service.go:134-140 | an update of a service without audit store whose row statement fails leaves exactly the replaced rules, matched under that condition |
| HalfUpdates.HalfUpdateMixes | internal/flags/service.go:134-140 | such a call that leaves rules and strategy unmatched |
| FlagServices.FlagService.DeleteFlag | internal/flags/service.go:259-293 | the serial outcome, with or without its audit row, or with any fault an error and nothing committed |
| FlagServices.FlagService.EvaluateFlagInEnvironment | internal/flags/service.go:234-256 | the specified answer from two reads, and nothing written |
| UserServices.UserService.CreateUser | internal/users/service.go:38-76 | the serial outcome, with or without its audit row, or with any fault an error and nothing committed |
| UserServices.UserService.UpdateUser | internal/users/service.go:134-172 | the serial outcome, with or without its audit row, or with any fault an error and nothing committed |
| UserServices.ApplyUpdateFields | internal/users/service.go:191-202 | email and role are set as given and otherwise stay, and the password as below |
| UserServices.SetPasswordIfProvided | internal/users/service.go:205-215 | the hash of a non-empty password is set, otherwise the old one stays, and it fails exactly when a password is given and hashing fails |
| UserOutcomes.CreateUserOutcome | internal/users/service.go:78-92 | createUser: refused for a stored email, a hashing failure or an unknown role; otherwise the user with email and role as given and the hash of a non-empty password or none, one audit row, and nothing else changed |
| UserOutcomes.UpdateUserOutcome | internal/users/service.go:174-215 | updateUser: no UUID, not found, hashing failure, unknown role, email of another user; otherwise email, role and hash as given and else as before, one audit row, and nothing else changed |
| UserOutcomes.DeleteUserOutcome | internal/users/service.go:218-267 | deleteUser: a missing user is no error and logs nothing; a present one is gone with its assignments, and the audit row has the text the client sent |
| UserServices.UserService.DeleteUser | internal/users/service.go:218-256 | the serial outcome: a missing user gives false, no audit row and no change |
| UserServices.UserService.DeleteUserWithStore | internal/users/service.go:258-267 | a not-found error anywhere in the chain is turned into false, every other error is returned |
| ExperimentServices.ExperimentService.CreateExperiment | internal/experiments/service.go:42-104 | with audit the serial outcome, without audit the same writes and no audit row, with any fault nothing; on a store that begins no transaction a failure leaves the statements before it |
| ExperimentServices.ExperimentService.PersistVariants | internal/experiments/service.go:173-188 | the variants inserted one by one, or the first error; outside a transaction the ones before it stay |
| ExperimentServices.ExperimentService.GetAssignment | internal/experiments/service.go:204-239 | from four calls the stored variant, or for an unassigned user the one of the share, which is stored; with any fault an error and no change |
| ExperimentServices.ServeTouchesOnlyAssignments | internal/experiments/service.go:204-239 | a call changes no table but the assignments |
| ExperimentServices.ServeAgain | internal/experiments/service.go:204-239 | a served user gets the same variant again, in any spelling and whatever the hash |
| ExperimentOutcomes.CreateExperimentOutcome | internal/experiments/service.go:106-188 | createExperiment: refused for its weights, with the sum and weights reported, a stored key or a weight its column cannot hold; otherwise the experiment with exactly the given variants in order, one audit row, and nothing else changed |
| ExperimentOutcomes.GetAssignmentOutcome | internal/experiments/service.go:204-239 | getAssignment: each error with its cause; otherwise the stored variant unchanged, or for an unassigned user the one of the share, stored and nothing else changed |
| Resolvers.Resolver.CreateFlag | transport/graphql/flags.resolvers.go:18-25 | refused at the role gate without a call, or carried out in the subject's name |
| Resolvers.Resolver.UpdateFlag | transport/graphql/flags.resolvers.go:28-35 | the same gate for updateFlag |
| Resolvers.Resolver.DeleteFlag | transport/graphql/flags.resolvers.go:38-45 | the same gate for deleteFlag |
| Resolvers.Resolver.EvaluateFlag | transport/graphql/flags.resolvers.go:48-57 | any of the three roles, environment dev by default, nothing written |
| Resolvers.Resolver.CreateUser | transport/graphql/users.resolvers.go:16-23 | the gate for admins only |
| Resolvers.Resolver.UpdateUser | transport/graphql/users.resolvers.go:26-33 | the gate for admins only |
| Resolvers.Resolver.DeleteUser | transport/graphql/users.resolvers.go:36-43 | the gate for admins only |
| Resolvers.Resolver.CreateExperiment | transport/graphql/experiments.resolvers.go:18-28 | the gate for admins and developers, then an error if there is no experiments service |
| Resolvers.Resolver.GetAssignment | transport/graphql/experiments.resolvers.go:50-58 | any of the three roles, then the service, or an error if there is none |
| Resolvers.AdmittedIff | internal/auth/auth.go:31-53 | who may carry out a mutation: admins, developers unless it is about users, never viewers, never without a subject |
| Resolvers.EveryRole | transport/graphql/flags.resolvers.go:48-57 | evaluations and assignments are for exactly the three roles |
| Solo.SoloRun | internal/flags/service.go:133-170 | an uninterrupted run of the interleaving machine ends exactly as the serial outcome says |
| Solo.SoloCall | internal/experiments/service.go:204-239 | an uninterrupted getAssignment of the machine ends exactly as the serial call |
| SerialRuns.SerialIsARun | internal/flags/service.go:133-170 | every serial mutation is a run of the machine from the same tables |
| SerialRuns.SerialKeeps | internal/flags/service.go:203-226 | a serial mutation keeps rules matched to strategies and weights summing to 100 |
| SerialRuns.CallKeeps | internal/flags/service.go:133-170 | one mutation call, whatever faults hit it, keeps both, and either leaves the one audit row that is due or changes nothing |
| SerialRuns.LogIsDue | README.md:109-115 | over any sequence of requests the log grows by exactly the rows due, in the order of the requests |
| SerialRuns.ViewersOnlyPick | internal/auth/auth.go:31-42 | requests of viewers, mutations among them, change no table but the assignments |
| SerialRuns.ServeAll | README.md:109-115 | any sequence of mutations, assignments and evaluations with any faults keeps both, with the log and the tables as the requests allow |
| Snapshots.RoundTrip | scripts/coverage/coverage_hotspots.py:82-118 | from_dict of to_dict gives the same snapshot |
| Snapshots.EmptyDict | scripts/coverage/coverage_hotspots.py:83-101 | the default of every field |
| Snapshots.Converts | scripts/coverage/coverage_hotspots.py:86-100 | what the conversions of a field to a number or a text do with each kind of JSON value, and which of them raise |
| Snapshots.IntTowardZero | scripts/coverage/coverage_hotspots.py:100 | the conversion of a number to an integer cuts towards zero |
| Snapshots.LoopSees | scripts/coverage/coverage_hotspots.py:87-97 | the loops see the items of a list, the keys of an object and the characters of a text, and raise on any other value |
| Snapshots.GitNeeds | scripts/coverage/coverage_hotspots.py:99 | the git entry loads exactly when it is an object that says whether git is available and has no unknown key |
| Snapshots.RowsSkip | scripts/coverage/coverage_hotspots.py:88-97 | rows are read in order, items without percentage or name are skipped, and one that does not convert raises |
| Snapshots.ContainsIff | scripts/coverage/coverage_hotspots.py:91 | the membership test on a text asks for a part of it |
| Snapshots.SameSignatureIff | scripts/coverage/coverage_hotspots.py:120-123 | two snapshots have one signature exactly when their pairs of name and rounded percentage are equal up to order |
| SnapshotStores.EncodeSnoc | scripts/coverage/coverage_hotspots.py:162-175 | saving one more snapshot extends the offline run-length encoding |
| SnapshotStores.TruncateFirst | scripts/coverage/coverage_hotspots.py:177-178 | truncating before a save makes no difference to what is kept after it |
| SnapshotStores.CountsAddUp | scripts/coverage/coverage_hotspots.py:162-175 | the repeat counts of the encoding add up to the number of saves |
| SnapshotStores.DistinctEncodesItself | scripts/coverage/coverage_hotspots.py:162-175 | a history without equal neighbours is its own encoding |
| SnapshotStores.ReloadIsSame | scripts/coverage/coverage_hotspots.py:139-187 | loading what a save wrote gives the saved history |
| SnapshotStores.LoadsAs | scripts/coverage/coverage_hotspots.py:139-155 | what each kind of file content loads as, a history list before a single snapshot, and when loading raises |
| SnapshotStores.LoadsInOrder | scripts/coverage/coverage_hotspots.py:146-151 | the items of a history list load one by one in order, and loading raises if one of them does |
| SnapshotStores.LoadsItem | scripts/coverage/coverage_hotspots.py:146-151 | an item that is no object is skipped, an object is converted |
| SnapshotStores.SnapshotStore.Load | scripts/coverage/coverage_hotspots.py:139-155 | a missing file, a history list, a single snapshot, and when loading raises |
| SnapshotStores.SnapshotStore.Save | scripts/coverage/coverage_hotspots.py:157-187 | the history keeps the last N entries, or all if N sets no limit; the last entry is the snapshot, or the repeated result with its new time, git and count; the file holds every entry and the latest; neighbours stay different |
| SnapshotStores.ExtendedEncodes | scripts/coverage/coverage_hotspots.py:162-175 | saves after a loaded history without equal neighbours encode both together |
| SnapshotStores.SaveAll | scripts/coverage/coverage_hotspots.py:129-187 | for any loaded history, any saves and any reloads in between, the history is the last min(N, all) entries, or all if N sets no limit, of the loaded ones followed by the run-length encoding of its last entry and all saves |
| SnapshotStores.PickLastDistinct | scripts/coverage/coverage_hotspots.py:533-540 | the latest entry with another signature; on a saved history the last, the one before it, or none |
| AuditQueries.BuildList | internal/audit/postgres.go:94-138 | the WHERE clause with its positional arguments selects what the filter asks for, and LIMIT and OFFSET bind the clamped limit and the offset |
| AuditQueries.ClampTwice | transport/graphql/audit.resolvers.go:32-38 | clamping in the resolver and in the store is clamping once: 50 for no positive limit, otherwise the limit, at most 200 |
| AuditQueries.AuditLogs | transport/graphql/audit.resolvers.go:28-55 | admins only, defaults, the negative offset error, and the query built |
| AuditPaging.PagesSpellOrder | internal/audit/postgres.go:126-136 | with distinct times consecutive pages are the one order, cut after k pages |
| AuditPaging.PagingIff | internal/audit/postgres.go:126-136 | pages always hold every row once if and only if no tie in created_at crosses a page boundary |
| AuditPaging.TieSkipsRow | internal/audit/postgres.go:126-136 | with a tie at a boundary there are answers that skip a row |
| AuditPaging.AnswersJoin | internal/audit/postgres.go:94-138 | the answers to the built page queries join to the whole filtered log |

## Left out

- StrategyMatch.RulesMatchStrategy: does not cover overlapping updates of one flag, where the property can fail; ClashRuns.KeepMatchIff has the exact condition on the inputs of any number of them.
- UpdateCommits.AlwaysMatchedIff: its condition is read off at each commit, not from the inputs.
- WholeAnswers.AlwaysWholeIff: is about runs with one mutation aimed at the flag; for runs with more of them RolloutHistory.QuietAnswer says when an answer is whole.
- Races.LoserGetsDuplicate: does not cover a create that fails for another reason first, such as an invalid weight list or a role the CHECK constraint refuses.
- SnapshotStores.SaveAll: does not model a failure to write the file, and starts from a file that loads.
- Snapshots.RoundTrip: does not cover percentages and gates that are not finite numbers, nor the text layer of JSON below its values.
- AuditQueries.BuildList: does not cover an actor filter that is no UUID, which the database refuses when the query runs.
- UPDATE and DELETE that wait for a lock re-check their row after waiting. A DELETE of rules sees the table as it was when the statement started, so it may miss rules committed while it scanned or waited; the machine lets it miss any subset of the rules committed since its transaction read the flag.
- Stores without the optional transaction interfaces, except for the experiments service without audit store.
- Deadlock detection and lock time-outs are not separate steps; they appear as a failure of the waiting statement.
- Texts of errors, names of operations and the fields of OperationError other than its cause.
- Ids and created_at of audit rows in the machine; commit order takes their place, and paging has its own rows with times.
- The UUID grammar: an id text is canonical, another spelling of a UUID, or no UUID.
- FNV-1a, strconv.Atoi, json.Unmarshal, bcrypt and Python's round and str are uninterpreted.
- Login, JWT, TLS, HTTP middleware, logging and configuration: wrappers around libraries.
- GetUser, GetUserByEmail, GetExperiment, AuditLog and the mappers to GraphQL models: single reads and copies.
- Printing, git and subprocess parts of coverage_hotspots.py, the other scripts and coverage_filter: input and output.
