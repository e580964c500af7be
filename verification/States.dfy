/** Node and run state machines of the graph runtime. */
module States {

  datatype NodeState =
    | Pending | Ready | Running | Repairing
    | Succeeded | Failed | Blocked | Skipped | Cancelled

  datatype RunState =
    | RunCreated | RunValidated | RunRunning | RunPaused
    | RunSucceeded | RunFailed | RunCancelled | RunPartial

  predicate IsTerminal(s: NodeState) {
    s.Succeeded? || s.Failed? || s.Blocked? || s.Skipped? || s.Cancelled?
  }

  /** The states that make a dependency dead for `process_blocked`. */
  predicate IsDead(s: NodeState) {
    s.Failed? || s.Cancelled? || s.Blocked? || s.Skipped?
  }

  predicate IsTerminalRun(s: RunState) {
    s.RunSucceeded? || s.RunFailed? || s.RunCancelled? || s.RunPartial?
  }

  function AllowedTransitions(source: NodeState): set<NodeState> {
    match source
    case Pending => {Ready, Blocked, Skipped, Cancelled}
    case Ready => {Running, Skipped, Cancelled}
    case Running => {Succeeded, Failed, Repairing, Ready, Cancelled}
    case Repairing => {Ready, Failed, Cancelled}
    case Succeeded => {}
    case Failed => {Pending}
    case Blocked => {Pending}
    case Skipped => {}
    case Cancelled => {Pending}
  }

  predicate CanTransition(source: NodeState, target: NodeState) {
    target in AllowedTransitions(source)
  }

  /** Final run status from the node states, in the source's priority order. */
  function DetermineRunStatus(states: seq<NodeState>): RunState {
    if |states| == 0 then RunFailed
    else if forall s | s in states :: s == Succeeded then RunSucceeded
    else if Cancelled in states && Succeeded !in states then RunCancelled
    else if Succeeded in states then RunPartial
    else RunFailed
  }

  // The only way out of a terminal state is an explicit reset to Pending, and a success has none at all.
  lemma TerminalExits(source: NodeState, target: NodeState)
    requires IsTerminal(source)
    ensures CanTransition(source, target) <==> target == Pending && source in {Failed, Blocked, Cancelled}
    ensures source in {Succeeded, Skipped} ==> !CanTransition(source, target)
  {
  }

  /** By target: the states from which each state can be entered. */
  lemma TransitionEntries(source: NodeState, target: NodeState)
    ensures CanTransition(source, target) <==>
            match target
            case Pending => source == Failed || source == Blocked || source == Cancelled
            case Ready => source == Pending || source == Running || source == Repairing
            case Running => source == Ready
            case Repairing => source == Running
            case Succeeded => source == Running
            case Failed => source == Running || source == Repairing
            case Blocked => source == Pending
            case Skipped => source == Pending || source == Ready
            case Cancelled => source == Pending || source == Ready || source == Running || source == Repairing
  {
  }

  /** Terminal states can only be left for Pending or not at all; all but success make a dependency dead. */
  lemma TerminalMeans(s: NodeState)
    ensures IsTerminal(s) <==> forall t | CanTransition(s, t) :: t == Pending
    ensures IsTerminal(s) <==> s != Pending && s != Ready && s != Running && s != Repairing
    ensures IsDead(s) <==> IsTerminal(s) && s != Succeeded
  {
    assert CanTransition(Pending, Ready) && CanTransition(Ready, Running);
    assert CanTransition(Running, Ready) && CanTransition(Repairing, Ready);
  }

  /** A run has ended unless it is created, validated, running or paused. */
  lemma EndedRuns(s: RunState)
    ensures IsTerminalRun(s) <==> s != RunCreated && s != RunValidated && s != RunRunning && s != RunPaused
  {
  }

  // The derived status only depends on which states occur, so neither the order of the nodes nor repetitions matter.
  lemma StatusDependsOnStateSet(a: seq<NodeState>, b: seq<NodeState>)
    requires forall s: NodeState :: s in a <==> s in b
    ensures DetermineRunStatus(a) == DetermineRunStatus(b)
  {
    assert |a| > 0 ==> a[0] in b;
    assert |b| > 0 ==> b[0] in a;
    assert (forall s | s in a :: s == Succeeded) <==> (forall s | s in b :: s == Succeeded);
  }

  // Without a cancelled node the status says whether all, none or some of the nodes succeeded.
  lemma StatusWithoutCancel(states: seq<NodeState>)
    requires |states| > 0 && Cancelled !in states
    ensures var status := DetermineRunStatus(states);
            && (status == RunSucceeded <==> forall s | s in states :: s == Succeeded)
            && (status == RunFailed <==> Succeeded !in states)
            && (status == RunSucceeded || status == RunFailed || status == RunPartial)
  {
    assert states[0] in states;
  }

  // With a cancelled node the run is cancelled unless something succeeded.
  lemma StatusWithCancel(states: seq<NodeState>)
    requires Cancelled in states
    ensures DetermineRunStatus(states) == if Succeeded in states then RunPartial else RunCancelled
  {
  }
}
