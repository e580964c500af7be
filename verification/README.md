# Verified model of the DFT-Forge graph runtime

DFT-Forge runs density-functional-theory workflows as graphs of tool calls. This project models its graph runtime in
Dafny and proves what the runtime is for: whatever the interleaving of completions, the concurrency limit, the crashes
and the restarts, a run does what its graph says, commits in dependency order, and ends. Four smaller algorithms of the
same repository are modelled beside it: the parameter repairer that is plugged into the scheduler, the scanner that
recovers JSON from polluted output, the bond and angle counting, and the vacuum test.

How the files fit together:

- `States`, `Values`, `Graph`, `Cycle`, `Binding`: the transition table and the derived run status; JSON-shaped values
  and the `${...}` reference syntax; template validation with the three-colour depth-first search, as a class whose
  methods change colours and stack; resolution of bindings.
- `Machine`: the runtime as a transition system. A state holds the node map, the nodes in flight, the durable rows and
  the run status; a step is Block, Dispatch, Finish, Cancel, Complete, Crash (also in the middle of a repair or of a
  cancellation), Start, Resume, Reset or Reopen. Runs are arbitrary sequences of enabled steps.
- `Safety`, `Evaluator`, `Schedule`, `Outcomes`, `Supply`, `Blocking`, `Recovery`, `Repairs`, `Leaving`, `Orphans`: the
  theorems about all runs of that system. The reference for schedule independence is a sequential evaluator that takes
  the nodes one by one in topological order; `Supply` gives the condition on tools under which no dispatch ever raises.
- `Notation`, `Rules`, `Handbook`, `Noise`, `BondTables`: what the definitions above and below mean, written out without
  them: the alphabet, the references and the valid templates; what every action of the loop does, for every step of
  every run and of the traces that the imperative loops build up; what the parameter repairer does with each failure;
  which noise leaves a string open; what the bond tables hold.
- `RunRecords`, `Store`, `Scheduler`, `Engine`: the mutable records, the store, the scheduler's two loops and the
  engine's calls, as classes whose methods update fields in place. Their contracts tie each method to the transition
  system, so that the theorems hold of the loops: `RunThreaded` and `RunAsync` terminate, take every step by the rules
  and end as the evaluator does. The engine's calls run the template's own nodes with the engine's own handlers, and
  keep what the next call needs, so that create, start, resume and retry compose.
- `QERepair`, `JsonScan`, `Bonds`, `Vacuum`: the four smaller algorithms, each against an independent definition.
- `Counterexamples`: concrete runs for two statements that the code does not meet.

Where the code and its own comments disagree, the model follows the code:

- A cancelled run is described as resumable, and the transition table comments Cancelled to Pending as "resume after
  pause". `resume_run` resets Running, Ready and Repairing only. `Recovery.CancelThenResumeCompletesIff` says exactly
  when a resumed run still completes, and `Counterexamples.CancelledRunDoesNotResume` shows one that does not.
- Resolving bindings again after a reload is commented as a no-op. It drops repairs.
  `Repairs.RepairSurvivesCrashIff` says exactly when a repair survives, and `Counterexamples.RepairIsLostInCrash` shows
  one that does not.
- `retry` is described as resetting Failed and Blocked nodes. Blocked is never written to the store, so after an
  uncancelled run the nodes that can be named in a retry are exactly the Failed ones: `Recovery.UncancelledRows`.
- The brace scanner tracks quotes outside objects too, so noise with an unclosed quote hides what follows it:
  `JsonScan.FoundIffQuotesClosed` says exactly when an object is found, and `Noise.FoundIffClosed` says it of the text
  of the noise.

## Model

| member | source | states |
|---|---|---|
| States.TerminalExits | dft_forge/runtime/states.py:32-61 | the only exits from a terminal state are the resets of Failed, Blocked and Cancelled to Pending; a success has none |
| States.TransitionEntries | dft_forge/runtime/states.py:32-61 | the whole table read by target: from which states each state can be entered |
| States.TerminalMeans | dft_forge/runtime/states.py:14-61 | terminal states are those without a way on, resets apart; all of them but success make a dependency dead |
| States.StatusDependsOnStateSet | dft_forge/runtime/states.py:64-81 | the derived status depends only on which states occur, not on order or multiplicity |
| States.StatusWithoutCancel | dft_forge/runtime/states.py:64-81 | without a cancelled node: Succeeded iff all succeeded, Failed iff none did, otherwise partial |
| States.StatusWithCancel | dft_forge/runtime/states.py:64-81 | with a cancelled node the run is Cancelled unless some node succeeded, and then partial |
| Values.ParseRefExact | dft_forge/runtime/run.py:84 | the reference syntax is unambiguous: a string parses to a reference iff it is that reference written out, for references made of word characters |
| Notation.NameCharacters | dft_forge/runtime/run.py:84 | the characters of node ids and keys are exactly A to Z, a to z, 0 to 9 and the underscore, written out |
| Notation.InputReference | dft_forge/runtime/run.py:84 | a string refers to an input iff it is ${inputs.key} with a name for its key |
| Notation.OutputReference | dft_forge/runtime/run.py:84 | a string refers to an output iff it is ${nodes.node.outputs.key} with names for both |
| Notation.BareNodeReference | dft_forge/runtime/run.py:84 | the third form that the expression matches, ${nodes.node}, is a reference without an output key |
| Notation.InputOutputReference | dft_forge/runtime/run.py:84 | so is the fourth, ${inputs.name.outputs.key}, with its output key |
| Notation.BlankIsStripped | dft_forge/runtime/graph.py:74-83 | an id counts as empty iff it consists of the 29 white-space characters that are stripped |
| CycleDetection.OrderImpliesAcyclic | dft_forge/runtime/graph.py:143-171 | a topological order rules out every closed walk (the finishing order is the witness of completeness) |
| CycleDetection.CycleDetector.CloseCycle | dft_forge/runtime/graph.py:149-152 | the gray node found again closes the top of the stack into a real cycle, because the stack is a walk of real edges |
| CycleDetection.CycleDetector.Dfs | dft_forge/runtime/graph.py:148-163 | keeps the gray nodes equal to the stack and finished nodes in dependency order; a reported path is a cycle; otherwise the stack is as before and the node is black |
| CycleDetection.CycleDetector.Detect | dft_forge/runtime/graph.py:143-171 | returns nothing iff the dependencies are acyclic; a reported path has real edges and coinciding ends; otherwise the finishing order is topological |
| Graph.CheckReference | dft_forge/runtime/graph.py:103-121 | exactly the fault of the parameter string is reported, and none iff it is no reference or one to a known input or an output of a declared dependency |
| Graph.CheckNode | dft_forge/runtime/graph.py:81-121 | exactly the node's faults are reported, and none iff it meets every per-node rule |
| Graph.CheckCycle | dft_forge/runtime/graph.py:123-125 | reports a real cycle iff there is one, and otherwise yields a topological order |
| Graph.CheckOutputs | dft_forge/runtime/graph.py:127-135 | exactly the faulty template outputs are reported: those that are no output reference, or one to an unknown node |
| Graph.Validate | dft_forge/runtime/graph.py:60-141 | an error is reported iff its fault is there, cycles apart; a cyclic template gets a real cycle reported; no errors iff the template is valid, and then a topological order |
| Notation.ReferenceAccepted | dft_forge/runtime/graph.py:103-121 | a parameter string passes iff it does not open a reference, or is ${inputs.key} for a known input, or ${nodes.node.outputs.key} for a known and declared node |
| Notation.OutputAccepted | dft_forge/runtime/graph.py:127-135 | a template output passes iff it is such an output reference to a known node, up to one final newline |
| Notation.NodeAccepted | dft_forge/runtime/graph.py:81-121 | a node passes iff its id is a name, its tool is given, its limits are in range, its dependencies are known and its parameter strings pass |
| Notation.ValidMeans | dft_forge/runtime/graph.py:60-141 | the valid templates, spelled out from id, names, limits, closed walks of dependencies, references, outputs and known tools |
| Binding.ResolvesIff | dft_forge/runtime/run.py:87-117 | resolution of any nested value fails iff one of the strings inside it is an unresolvable reference |
| Binding.ReferenceResolves | dft_forge/runtime/run.py:87-109 | a written-out reference resolves to a value iff that is the named input or the committed output of a succeeded node |
| Binding.LiteralResolvesToItself | dft_forge/runtime/run.py:108-113 | a value without references resolves to itself, so resolving it again is a no-op |
| Binding.ValidationDeclaresRefs | dft_forge/runtime/graph.py:103-121 | every reference that resolution can meet in a validated node names a known input or an output key of a declared dependency |
| Binding.ResolveUsesDeclaredDeps | dft_forge/runtime/run.py:87-117 | a validated node reads nothing but the states and outputs of its declared dependencies |
| Binding.BindingSafe | dft_forge/runtime/scheduler.py:251-253 | at a dispatchable node resolution fails iff a succeeded dependency did not produce a referenced output key |
| Notation.InputIsBound | dft_forge/runtime/run.py:87-117 | ${inputs.key}, with any blanks around it, is bound to the input of that name, and to nothing if there is none |
| Notation.OutputIsBound | dft_forge/runtime/run.py:87-117 | ${nodes.node.outputs.key}, with any blanks around it, is bound to the output under that key of a succeeded node, and to nothing otherwise |
| Notation.EntriesAreBound | dft_forge/runtime/run.py:110-117 | a list is bound entry by entry and a dictionary value by value, and to nothing iff some entry is |
| Machine.ValidatedConfig | dft_forge/runtime/graph.py:60-141 | what validation accepts satisfies everything the scheduler relies on, for all inputs and settings |
| Machine.UsableConfig | dft_forge/runtime/engine.py:52-56 | a registered template stays usable whatever inputs, limit and handlers a later run brings |
| Machine.ConfigExecutes | dft_forge/runtime/engine.py:111-126 | a run has the engine's handlers in their order, a limit of at least one, the run's inputs, and under each id the template's own node, every field of it |
| Safety.StepKeeps | dft_forge/runtime/scheduler.py:241-293 | every step of every kind keeps the invariant: in-flight nodes are the Running ones and within the limit, engaged nodes have succeeded dependencies, memory and store agree |
| Safety.RunSafety | dft_forge/runtime/scheduler.py:153-181 | over every run from create, with crashes, resumes, cancellations and retries: slots, dependency safety in memory and in the store |
| Safety.RecoveryCommutes | dft_forge/runtime/store.py:72-173 | at every step boundary recovering from the store and from memory give the same node map |
| Safety.CrashThenResume | dft_forge/runtime/store.py:153-173 | a crash and a resume at any step boundary are possible and continue from the durable image of the memory |
| Safety.SuccessKept | dft_forge/runtime/scheduler.py:268-293 | no step of any kind dispatches, resets or rewrites a persisted success |
| Safety.SuccessForever | dft_forge/runtime/scheduler.py:268-293 | over any run a persisted success is final, outputs and all, and is never dispatched or reset again |
| Safety.CommitOrder | dft_forge/runtime/scheduler.py:283-293 | a success is committed only by a successful finish and only after all dependencies have been committed: commits are a linear extension of the graph |
| Safety.StepBudget | dft_forge/runtime/scheduler.py:323-340 | no step breaks the retry and repair budgets; only a resume loosens the attempt bound, by one |
| Safety.BudgetsHold | dft_forge/runtime/scheduler.py:323-340 | over every run: repairs within their limit; attempts within max_attempts plus repairs plus one per resume, strictly while Pending or Ready (why a node is Failed: Rules.EveryFailureHasCause) |
| Evaluator.FinishLightens | dft_forge/runtime/scheduler.py:323-340 | every outcome of a running node, repair and retry included, lowers its weight |
| Evaluator.SettleEnds | dft_forge/runtime/scheduler.py:268-340 | a dispatched node run to its end has succeeded or failed |
| Evaluator.EvalSolves | dft_forge/runtime/scheduler.py:155-181 | the sequential evaluator solves the per-node equations that every schedule satisfies |
| Evaluator.TerminalIsFinal | dft_forge/runtime/scheduler.py:174-178 | once all nodes are terminal, memory is the solution of those equations |
| Schedule.RunTracks | dft_forge/runtime/scheduler.py:155-181 | at every point of every schedule each record is on its way to the evaluator's record |
| Schedule.ScheduleIndependence | dft_forge/runtime/scheduler.py:133-237 | any interleaving, concurrency limit and template order ends with the evaluator's states, outputs, parameters, attempts and repairs |
| Schedule.AnyTwoSchedulesAgree | dft_forge/runtime/scheduler.py:133-237 | two schedulers with different limits and orders end with the same node map |
| Schedule.IdleHasBlockable | dft_forge/runtime/scheduler.py:173-179 | no deadlock: with no future and no ready node, either all nodes are terminal or some node has a dead dependency |
| Schedule.IdleProgress | dft_forge/runtime/scheduler.py:173-179 | from such an idle state the next pass lowers the measure |
| Schedule.StepMeasure | dft_forge/runtime/scheduler.py:155-181 | every dispatch and finish lowers the measure and no pass raises it |
| Schedule.BoundedWork | dft_forge/runtime/scheduler.py:155-181 | a loop run makes at most as many dispatches and finishes as the measure of its entry |
| Rules.FinishFollows | dft_forge/runtime/scheduler.py:268-340 | a finish of any loop run: the tool answered to the running record and to the stored outputs of exactly its declared dependencies, all stored as succeeded; a failure goes to the named handler, or the first one, iff it is repairable and repairs are left; otherwise it is retried iff attempts are left |
| Rules.DispatchFollows | dft_forge/runtime/scheduler.py:241-266 | a dispatch of any loop run: dependencies stored as succeeded, a free slot, one more attempt, bindings resolved on the first dispatch and kept afterwards, row and record alike |
| Rules.BlockFollows | dft_forge/runtime/scheduler.py:70-81 | a pass blocks every Pending node with a dead dependency, none without one, and touches nothing else |
| Rules.LoopFollowsRules | dft_forge/runtime/scheduler.py:155-181 | every step of every loop run follows its rule |
| Rules.TraceFollowsRules | dft_forge/runtime/scheduler.py:155-181 | so does every step of the trace that the imperative loops build up |
| Rules.FailureHasCause | dft_forge/runtime/scheduler.py:323-340 | a row becomes Failed only when its handler refused, or when no handler was asked and the attempts are used up |
| Rules.EveryFailureHasCause | dft_forge/runtime/scheduler.py:323-340 | over any run, with crashes, cancellations and retries: a Failed row was there at the start or has such a cause, and is untouched since |
| Rules.StartFollows | dft_forge/runtime/engine.py:111-126 | start reads every node of the template back as it was stored, or as a blank Pending record |
| Rules.ResumeFollows | dft_forge/runtime/store.py:153-173 | resume makes Pending what was Running, Ready or Repairing and keeps all else of every record |
| Rules.CancelFollows | dft_forge/runtime/scheduler.py:349-360 | a cancellation stores the nodes in flight as Cancelled and otherwise as they were, all or, dying on the way, some; no other row changes |
| Rules.CrashFollows | dft_forge/runtime/scheduler.py:327-331 | dying loses memory only; inside a handler the node's row says Repairing and is otherwise as it was |
| Rules.ResetFollows | dft_forge/runtime/engine.py:159-168 | a reset is legal from Failed, Blocked and Cancelled; it keeps outputs and clears state, counters and parameters |
| Rules.CompleteFollows | dft_forge/runtime/scheduler.py:173-178 | a run completes with nothing in flight and every node Succeeded, Failed, Blocked or Cancelled, and its status says which |
| Rules.StatusFollows | dft_forge/runtime/states.py:64-81 | the derived status in terms of the node records |
| Outcomes.UnfinishedIffBindFailure | dft_forge/runtime/scheduler.py:251-253 | every node can end iff no node's bindings fail in the evaluator |
| Outcomes.AbortIsBindFailure | dft_forge/runtime/scheduler.py:251-253 | a dispatch that raises in some schedule is a binding failure of the evaluator too |
| Outcomes.EntryIsLoaded | dft_forge/runtime/engine.py:111-151 | start and resume enter the loop, from anything a run, a crash or a retry leaves, with nothing in flight and loaded records that are dependency-safe |
| Outcomes.BlockedIffKilledAncestor | dft_forge/runtime/scheduler.py:70-81 | in the evaluator's result a node is Blocked iff some strict ancestor is Failed (or was left Cancelled) |
| Outcomes.FinalStatus | dft_forge/runtime/states.py:64-81 | without cancelled records the evaluator's result has Succeeded, Failed and Blocked nodes only, and a status saying all, some or none succeeded |
| Outcomes.RunBlocksIff | dft_forge/runtime/scheduler.py:70-81 | at the end of every loop run a node is Blocked iff a strict ancestor Failed or was left Cancelled; iff one Failed when no record was cancelled at the entry |
| Outcomes.RunStatus | dft_forge/runtime/scheduler.py:173-178 | every loop run without cancelled records that has ended can complete, with Succeeded, Failed and Blocked nodes only and a status saying all, none or some succeeded |
| Supply.GenerousToolsBind | dft_forge/runtime/scheduler.py:251-253 | if tools yield every key that is referenced of them, and loaded successes carry theirs, no binding fails |
| Supply.RunSupplies | dft_forge/runtime/scheduler.py:283-293 | with such tools the successes a run commits carry what later runs refer to |
| Blocking.BlockingCloses | dft_forge/runtime/scheduler.py:70-81 | as many passes as there are nodes reach the order-free closure, which is a fixpoint |
| Blocking.OnePassSuffices | dft_forge/runtime/scheduler.py:70-81 | one pass reaches it when the template lists nodes topologically |
| Blocking.RunCaused | dft_forge/runtime/scheduler.py:70-81 | over every run a blocked node has a dead dependency |
| Blocking.ReloadRestoresBlocked | dft_forge/runtime/store.py:89-111 | the closure of the reloaded rows of a finished run has exactly the states memory had, Blocked included |
| Recovery.CrashesDoNotShow | dft_forge/runtime/store.py:153-173 | with always-succeeding tools any sequence of crashes and resumes that reaches the end has the outputs and parameters of the uninterrupted run |
| Recovery.CrashesDoNotAbort | dft_forge/runtime/scheduler.py:251-253 | no dispatch of such a history raises when the uninterrupted run's bindings do not fail |
| Recovery.ResumeEvaluatesAlike | dft_forge/runtime/store.py:153-173 | a resume after any such history evaluates to the successes, outputs and parameters of the uninterrupted run, and its bindings fail only if that run's do |
| Recovery.CancelResumeRuns | dft_forge/runtime/scheduler.py:349-360 | cancelling and resuming is possible at any step boundary and enters the loop with the cancelled rows |
| Recovery.CancelThenResumeCompletesIff | dft_forge/runtime/store.py:165-169 | with reliable tools a cancelled and resumed run completes iff nothing was in flight at the cancel |
| Recovery.CancelShowsIff | dft_forge/runtime/store.py:165-169 | for any tools: a cancelled and resumed run ends without a Cancelled node iff nothing was in flight at the cancel |
| Counterexamples.CancelledRunDoesNotResume | dft_forge/runtime/store.py:165-169 | a run cancelled with one node in flight and resumed ends Cancelled without running it |
| Repairs.RepairsSurviveRequeue | dft_forge/runtime/scheduler.py:245-253 | after the first dispatch the parameters are the handler's answers to the failures so far, each computed from the one before; bindings are never resolved again, not even empty ones |
| Repairs.QERunParams | dft_forge/runtime/scheduler.py:323-336 | for a node whose failures go to the parameter repairer they are its answers in order, within its bounds, and its measure has paid for every repair but added bands |
| Repairs.QEFailuresBounded | dft_forge/runtime/scheduler.py:323-340 | whatever repair budget a template grants, the repairer bounds the failures it is asked about, too few bands apart, by its measure plus one |
| Repairs.RepairSurvivesCrashIff | dft_forge/runtime/run.py:37-39 | for a node that waits or runs when the process dies: after the resume it is Pending and its parameters come back iff the spec resolves to them; without a crash they are kept |
| Repairs.CrashInHandler | dft_forge/runtime/scheduler.py:327-336 | the same for a process that dies inside the repair handler; that repair leaves no trace, not even in the repair count |
| Counterexamples.RepairIsLostInCrash | dft_forge/runtime/run.py:37-39 | a node whose cutoffs the parameter repairer raised dies running with them and runs again with the cutoff it had at first, its repair attempt spent |
| Recovery.ResetRowsAt | dft_forge/runtime/engine.py:159-168 | a retry of resettable nodes resets exactly the named rows |
| Rules.RetryFollows | dft_forge/runtime/engine.py:159-168 | whatever ids are named, in whatever order and however often: the first ones are reset, up to the first that is not resettable or was reset already; no other row changes |
| Recovery.ResetRowsOk | dft_forge/runtime/engine.py:159-168 | a retry, legal or raising midway, leaves rows that can be loaded, without orphans if there were none |
| Recovery.UncancelledRows | dft_forge/runtime/engine.py:156-161 | after an uncancelled run a node can be reset iff it Failed; Blocked reads back as Pending and cannot be named |
| Recovery.FinishedRunRows | dft_forge/runtime/store.py:89-111 | the rows of every finished uncancelled run load as Succeeded, Failed or Pending |
| Recovery.RetryEntry | dft_forge/runtime/engine.py:153-170 | a default retry of a finished run is legal and enters the loop with untouched successes and Pending nodes; failed ones are blank but for their outputs |
| Recovery.RetryOfSuccessDoesNothing | dft_forge/runtime/engine.py:153-170 | when all nodes had succeeded the loop dispatches nothing and can complete at once |
| Leaving.DoneLeavesNoOrphans | dft_forge/runtime/scheduler.py:173-178 | a run that has ended leaves no row Running or Repairing, whatever rows it began with |
| Leaving.PausedLeavesNoOrphans | dft_forge/runtime/scheduler.py:349-360 | a cancelled run leaves none that was not there before |
| Leaving.ResetKeepsSuccesses | dft_forge/runtime/engine.py:159-168 | a retry, legal or not, neither touches nor makes a success |
| Orphans.SomeRunEnds | dft_forge/runtime/scheduler.py:155-181 | from every state of a loop some continuation completes, unless bindings fail |
| Orphans.StartCompletesIff | dft_forge/runtime/engine.py:111-126 | with tools that yield every referenced key, start can complete iff no row says Running or Repairing; such a row keeps the loop turning for ever |
| RunRecords.NodeRun.FromRow | dft_forge/runtime/store.py:96-109 | a reloaded record is the stored one with its bindings forgotten |
| RunRecords.NodeRun.Transition | dft_forge/runtime/run.py:46-51 | legal iff the table allows it; otherwise the record is unchanged |
| Store.SQLiteStateStore.SaveRun | dft_forge/runtime/store.py:57-70 | replaces the one run row and nothing else |
| Store.SQLiteStateStore.SaveNodeRun | dft_forge/runtime/store.py:132-149 | replaces the one node row, without the unpersisted flag, and leaves other runs alone |
| Store.SQLiteStateStore.LoadRun | dft_forge/runtime/store.py:72-111 | fresh records for exactly the template's nodes, from their rows or new; nothing for an unknown run |
| Store.SQLiteStateStore.ResumeRun | dft_forge/runtime/store.py:153-173 | an ended run as it is; otherwise in-flight nodes back to Pending in memory and only the run row written |
| Scheduler.GraphScheduler.ProcessBlocked | dft_forge/runtime/scheduler.py:70-81 | one pass in template order, as the machine's Block step; every transition it makes is legal |
| Scheduler.GraphScheduler.FindReadyNodes | dft_forge/runtime/scheduler.py:54-67 | exactly the ready nodes, without repeats |
| Scheduler.GraphScheduler.PrepareDispatch | dft_forge/runtime/scheduler.py:241-266 | the machine's Dispatch on record and row; fails iff the bindings do not resolve, and then nothing has changed |
| Scheduler.GraphScheduler.HandleFailure | dft_forge/runtime/scheduler.py:323-340 | the record after a failure: the named or first handler's answer iff the failure is repairable and repairs are left, else Ready iff attempts are left; every transition is legal |
| Scheduler.GraphScheduler.Finish | dft_forge/runtime/scheduler.py:268-293 | the machine's Finish on record and row; a terminal node is left alone |
| Scheduler.GraphScheduler.CancelRun | dft_forge/runtime/scheduler.py:349-360 | every running in-flight node is Cancelled in memory and store, nothing else changes, the run is Paused |
| Scheduler.GraphScheduler.FillSlots | dft_forge/runtime/scheduler.py:162-167 | dispatches ready nodes within the free slots and leaves none ready beside a free slot; keeps futures without repeats; lowers the measure unless it dispatches nothing |
| Scheduler.GraphScheduler.Collect | dft_forge/runtime/scheduler.py:169-171 | pops and finishes exactly the futures that are done |
| Scheduler.GraphScheduler.EndCheck | dft_forge/runtime/scheduler.py:173-178 | ends the run iff no node is ready and all are terminal, with the derived status saved |
| Scheduler.GraphScheduler.ThreadedTick | dft_forge/runtime/scheduler.py:160-179 | a tick extends the machine run, and does work, turns idle or only waits |
| Scheduler.GraphScheduler.AsyncTick | dft_forge/runtime/scheduler.py:214-234 | the same for the asyncio tick, which waits for the first completion |
| Scheduler.GraphScheduler.RunThreaded | dft_forge/runtime/scheduler.py:133-181 | terminates if the tools return; every step follows its rule; ends with the evaluator's records and status, or paused by a cancel after which no node is Running, or aborted by a binding that fails in the evaluator, which tools that yield every referenced key exclude |
| Scheduler.GraphScheduler.RunAsync | dft_forge/runtime/scheduler.py:183-237 | the same rules and ends for the asyncio loop: both forms drive the same machine to the same result |
| Scheduler.GraphScheduler.RunMode | dft_forge/runtime/scheduler.py:115-131 | either mode, with the run of the machine that leads from the entry to the end, every step by its rule |
| Scheduler.GraphScheduler.Run | dft_forge/runtime/scheduler.py:115-131 | either mode ends as evaluated; successes and other runs are untouched, rows can be loaded, an ended run leaves no orphan, a paused one nothing Running, and no abort with tools that yield what is referenced |
| Engine.GraphEngine.RegisterTemplate | dft_forge/runtime/engine.py:52-56 | a template is kept iff it meets the spelled-out conditions of validity, and then usable for every later run |
| Engine.GraphEngine.Create | dft_forge/runtime/run.py:120-136 | refuses unknown templates and inputs; otherwise saves the run row with merged inputs and no node row, and a new run can be loaded |
| Engine.GraphEngine.Start | dft_forge/runtime/engine.py:111-126 | an ended run is not touched; any other runs, as the template's own nodes with the engine's handlers and limit, from its loaded rows to what the evaluator says, keeping its successes, all other runs and that it can be loaded; no orphan is left unless it aborts |
| Engine.GraphEngine.Resume | dft_forge/runtime/engine.py:138-151 | the same after the in-flight records of a dead process are recovered, with no cancel event |
| Engine.GraphEngine.RunTemplate | dft_forge/runtime/engine.py:128-136 | create then start: a fresh run of the template's own nodes goes from blank records to what the evaluator says |
| Engine.GraphEngine.ResetAll | dft_forge/runtime/engine.py:159-168 | resets node by node, memory and rows together, and stops at the first illegal transition; every row afterwards, spelled out |
| Engine.GraphEngine.Retry | dft_forge/runtime/engine.py:153-170 | raises iff some target cannot be reset, with the earlier resets written; otherwise runs, with the configuration of start, from the reset rows to what the evaluator says; successes, other runs and loadability are kept either way |
| QERepair.QEParamRepairer.Repair | dft_forge/engines/qe.py:480-501 | changes the parameters in place to the specified repair, or leaves them when it does not requeue |
| QERepair.QEParamRepairer.ReduceKPoints | dft_forge/engines/qe.py:505-521 | the timeout repair: band path first and then never the mesh |
| QERepair.CutoffRepair | dft_forge/engines/qe.py:495-501 | accepted iff the cutoff is below 120; strictly higher, at most 120, density cutoff eight times it, nothing else touched |
| QERepair.BandPathRepair | dft_forge/engines/qe.py:507-514 | accepted iff there are more than 24 band points; strictly fewer, never under 24, nothing else touched |
| QERepair.MeshRepair | dft_forge/engines/qe.py:515-521 | accepted iff some of three numeric axes exceeds 2 and the rest are integers; the axes are halved and the mesh work falls |
| QERepair.HalvedLightens | dft_forge/engines/qe.py:517 | an axis above 2 strictly falls but not under 2; one at or under 2 keeps its work and does not grow away from zero |
| QERepair.BandsRepair | dft_forge/engines/qe.py:485-490 | too few bands: always accepted for a readable count, at least doubled and at least 24 |
| QERepair.RepairLightens | dft_forge/engines/qe.py:480-521 | every accepted repair but adding bands lowers one common measure; nothing raises it; a refusal changes nothing |
| QERepair.RepairsTerminate | dft_forge/engines/qe.py:480-521 | over any sequence of failures of all kinds the accepted repairs, adding bands apart, are bounded by that measure |
| QERepair.RepairsStayInBounds | dft_forge/engines/qe.py:480-521 | over any sequence the cutoff only rises up to its limit, band points and axes only fall down to theirs |
| QERepair.AddingBandsNeverStops | dft_forge/engines/qe.py:485-490 | repeated too-few-bands failures are all repaired and the count doubles each time: only the scheduler's budget stops them |
| QERepair.SpentHandlerFails | dft_forge/runtime/scheduler.py:327-336 | with the measure spent, the next such failure fails the node for good |
| Handbook.KindsMean | dft_forge/engines/qe.py:480-501 | the four kinds of failure by category and by what the message says, in any case of letters for the timeout |
| Handbook.ConvergenceEffect | dft_forge/engines/qe.py:495-501 | a convergence failure is repaired iff a readable cutoff below 120 is in force, 45 by default: ten more, at most 120, density cutoff eight times it, and no other key changes |
| Handbook.TooFewBandsEffect | dft_forge/engines/qe.py:485-490 | too few bands: whenever the count can be read it is doubled, to at least 24, and no other key changes |
| Handbook.BandPathEffect | dft_forge/engines/qe.py:505-514 | a timeout with a band path is repaired iff there are more than 24 points: three fifths of them, at least 24, and no other key changes |
| Handbook.MeshEffect | dft_forge/engines/qe.py:515-521 | a timeout without one is repaired iff the mesh has an axis above two and readable entries: those axes are halved, at least two, the rest lose their fractions, and no other key changes |
| Handbook.TimeoutEffect | dft_forge/engines/qe.py:493-521 | a timeout touches the band points and the mesh only, and an accepted repair of one leaves less work |
| Handbook.NotEligibleEffect | dft_forge/engines/qe.py:481-483 | a failure of any other category changes nothing and is refused |
| JsonScan.BalancedJsonObjects | dft_forge/tools/definitions.py:16-48 | returns the texts of exactly the top-level balanced brace spans, disjoint and in order |
| JsonScan.ChunksUnique | dft_forge/tools/definitions.py:16-48 | that specification determines the answer |
| JsonScan.ChunksRescan | dft_forge/tools/definitions.py:16-48 | every chunk of any text scans to itself alone |
| JsonScan.LevelJson | dft_forge/tools/definitions.py:27-45 | no JSON value, whatever its strings and escapes, closes or reopens the object around it |
| JsonScan.ObjectIsChunk | dft_forge/tools/definitions.py:27-45 | the text of any JSON object is one chunk |
| JsonScan.RecoversObjects | dft_forge/tools/definitions.py:16-48 | from output polluted by brace-free noise with closed quotes exactly the object texts are returned, in order |
| JsonScan.QuoteFreeIsHarmless | dft_forge/tools/definitions.py:27-45 | noise without quotes and opening braces is such noise |
| JsonScan.FoundIffQuotesClosed | dft_forge/tools/definitions.py:27-45 | an object behind brace-free noise is found iff the noise leaves no string open |
| Noise.OutsideIffClosed | dft_forge/tools/definitions.py:27-45 | the scanner ends outside strings iff the text is made of single characters other than quotes and of whole string literals, escapes included |
| Noise.FoundIffClosed | dft_forge/tools/definitions.py:16-48 | an object behind brace-free noise is found iff the noise is such a text |
| Noise.RecoversFromNoise | dft_forge/tools/definitions.py:16-48 | from output polluted by such noise exactly the object texts are returned, in order |
| JsonScan.ParsePayload | dft_forge/tools/definitions.py:51-70 | nothing for blank text, the text itself when it parses, else the first of the largest parseable chunks |
| JsonScan.PayloadDominates | dft_forge/tools/definitions.py:51-70 | a payload larger than the other parseable objects of polluted output is the one returned |
| Bonds.KeyIdentifiesReversals | dft_forge/structure_analysis.py:72-78 | two candidates share a deduplication key iff they are the same or reversals of each other |
| Bonds.CollectBonds | dft_forge/structure_analysis.py:65-81 | the first-seen bonds and the per-atom neighbour lists, in candidate order |
| Bonds.OneBondPerPair | dft_forge/structure_analysis.py:72-81 | each reversal pair of candidates yields exactly one bond, of their length |
| Bonds.CoordinationIsDegree | dft_forge/structure_analysis.py:86-90 | the coordination counted on deduplicated bonds is the length of the neighbour list, self-images included |
| Bonds.Coordination | dft_forge/structure_analysis.py:86-92 | the coordinations are the bond incidences and sum to twice the number of bonds |
| Bonds.GroupedTotal | dft_forge/structure_analysis.py:92 | grouping by label neither loses nor invents values |
| Bonds.GroupedAt | dft_forge/structure_analysis.py:92 | each label holds its own values, in order |
| Bonds.GroupedSum | dft_forge/structure_analysis.py:92 | grouping by label keeps the sum of the values |
| Bonds.SummaryMean | dft_forge/structure_analysis.py:98-110 | the reported count is the number of values; the reported mean lies between the reported extremes and, times the count, gives back the sum |
| Bonds.SpeciesCoordination | dft_forge/structure_analysis.py:94-96 | the coordinations grouped by species; over all species they sum to the total coordination |
| Bonds.BondAngles | dft_forge/structure_analysis.py:113-128 | the grouped angles are those of all unordered neighbour pairs, centre by centre |
| Bonds.AngleCount | dft_forge/structure_analysis.py:114-128 | twice the number of angles is the sum of n(n-1) over the centres |
| Bonds.CoordinationAndBonds | dft_forge/structure_analysis.py:54-139 | from a two-way neighbour list: coordination equals degree, sums to twice the bonds, lengths are one per bond, species keep the total, twice the angles is the sum of c(c-1) over coordinations, and each table summarises its groups |
| BondTables.NextBond | dft_forge/structure_analysis.py:72-81 | a candidate brings a bond iff no earlier one is it or its reversal, atoms swapped and offset negated; bonds keep the order of the candidates |
| BondTables.BondNames | dft_forge/structure_analysis.py:81 | a bond names the two atoms of its candidate, the smaller first, and has its length |
| BondTables.NeighboursJoin | dft_forge/structure_analysis.py:71 | the neighbours of an atom are the candidates that leave it, in order |
| BondTables.PairLabel | dft_forge/structure_analysis.py:91 | a pair is labelled by its two symbols in dictionary order, joined by a hyphen, whichever atom comes first |
| BondTables.LengthsListed | dft_forge/structure_analysis.py:86-92 | a length is listed under a label iff a bond of that length joins atoms with that pair of symbols |
| BondTables.CoordinationsListed | dft_forge/structure_analysis.py:94-96 | a coordination is listed under a species iff an atom of that species has it |
| BondTables.AnglesListed | dft_forge/structure_analysis.py:114-128 | an angle is listed under a triplet iff two neighbours of some atom give it, neither closer than 1e-9: first symbol, centre, second symbol |
| Vacuum.DetectVacuum | dft_forge/compiler/__init__.py:195-202 | the flag of each axis is false iff it is long enough, has several atoms and a gap over one half |
| Vacuum.GapsPartitionTheCell | dft_forge/compiler/__init__.py:199-201 | the gaps are not negative, sum to one, and at most one exceeds one half |
| Vacuum.LargestGapIsArc | dft_forge/compiler/__init__.py:199-201 | the largest gap found by sorting is the largest empty arc, defined without any order |
| Vacuum.LargestArcUnique | dft_forge/compiler/__init__.py:199-201 | that definition determines the value |
| Vacuum.ShiftKeepsDecision | dft_forge/compiler/__init__.py:195-202 | shifting all atoms by any amount modulo the cell changes neither the largest gap nor the decision |
| Vacuum.VacuumIffWithinHalf | dft_forge/compiler/__init__.py:180-184 | an axis loses periodicity iff it is at least 8 long, has several atoms and they lie within less than half of it |
| Vacuum.AxisDecision | dft_forge/compiler/__init__.py:195-202 | an axis, with its own length and coordinate, loses periodicity iff it is at least 8 long and two or more atoms lie within half a cell behind one of them |

## Left out

- Node fields that no decision reads: error text, job id, work directory, timestamps. Validation errors are kept as
  values, their message texts are not.
- Threads, asyncio, locks, clocks, polling and SQLite. Futures are a finite dictionary, completions an arbitrary
  environment that is only required to let every future finish, and each save is one atomic write.
- Tools, handlers and executors: a tool is a function of its record and its upstream outputs, and is evaluated when its
  result is collected; an exception that is no ToolError counts as an unrepairable failure. Event callbacks, the
  `on_cancel` hook and directory creation are not modelled.
- Numbers in parameters are exact reals: no floating-point rounding, infinities or NaN. The factor 0.6 of the timeout
  repair is three fifths.
- Reading numbers from strings is a parameter of the repairer (`QERepair.Parser`), as `json.loads` and the length of a
  dumped value are parameters of `JsonScan.ParsePayload`.
- Templates loaded lazily from files, registration of tools, listing and status calls, and run ids, which are given by
  the caller instead of drawn at random.
- Scheduler.GraphScheduler.Run: entered with a run that was just loaded, resumed or retried.
- Engine.GraphEngine.Start: assumes that no row is Running or Repairing, because otherwise the call does not return:
  `Orphans.StartCompletesIff` gives the exact condition.
- Engine.GraphEngine.Retry: assumes it too, because it ends in `start`.
- Recovery.CrashesDoNotShow: crashes at step boundaries. Tools that always succeed never reach the repair handler; a
  crash in the middle of a cancellation is covered by `Safety.RunSafety` and `Safety.SuccessForever`.
- Bonds.CoordinationAndBonds: the neighbour search, the cutoff and the angle of two vectors are given; the rounding of
  the reported figures and the early returns for a degenerate cell are not modelled.
- Vacuum.DetectVacuum: takes coordinates already wrapped into the cell, as they are along periodic axes; reading the file
  and the cell lengths is not modelled.
- Structure compilation, input rendering, job scripts, the chat agent, the web backend and the command line: text and
  wiring.
