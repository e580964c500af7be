/** Concrete runs behind the two places where the runtime does less than its comments say. */
module Counterexamples {
  import opened Values
  import opened States
  import opened Graph
  import opened Binding
  import opened Machine
  import opened Safety
  import QERepair

  const DEFAULTS: Params := map["ecutwfc" := Num(45.0)]
  const BUMPED: Params := map["ecutwfc" := Num(55.0), "ecutrho" := Num(440.0)]
  const SCF := NodeSpec("scf", "qe", DEFAULTS, [], 1, 2, None, None, "local")
  const ONE_NODE := Config(map["scf" := SCF], ["scf"], map[], 1, ["qe_param_bump"])

  lemma Prepend(s: Sys, step: Step, next: Sys, rest: seq<Step>)
    requires Enabled(ONE_NODE, s, step) && Apply(ONE_NODE, s, step) == next && Runs(ONE_NODE, next, rest)
    ensures Runs(ONE_NODE, s, [step] + rest) && Exec(ONE_NODE, s, [step] + rest) == Exec(ONE_NODE, next, rest)
  {
    assert ([step] + rest)[1..] == rest;
  }

  lemma ScfResolves(nodes: Nodes)
    ensures ResolveParams(DEFAULTS, map[], nodes) == Some(DEFAULTS)
  {
    assert ResolveValue(Num(45.0), map[], nodes) == Some(Num(45.0));
    var r := ResolveValue(Dict(DEFAULTS), map[], nodes);
    assert forall k | k in DEFAULTS :: ResolveValue(DEFAULTS[k], map[], nodes) == Some(DEFAULTS[k]);
    assert r.value.fields == DEFAULTS;
  }

  /** The only node with this record, in memory (`n`) or in the store (`row`). */
  function Up(n: Node, row: Node): Sys {
    Sys(true, map["scf" := n], if n.state == Running then {"scf"} else {}, map["scf" := row], RunRunning)
  }

  const FIRST := Node(Running, 1, 0, DEFAULTS, true, map[])
  const STOPPED := Node(Cancelled, 1, 0, DEFAULTS, false, map[])
  const REPAIRED := Node(Ready, 1, 1, BUMPED, true, map[])
  const SECOND := Node(Running, 2, 1, BUMPED, true, map[])
  const RESUMED := Node(Pending, 2, 1, BUMPED, false, map[])
  const THIRD := Node(Running, 3, 1, DEFAULTS, true, map[])

  lemma StartStep()
    ensures Enabled(ONE_NODE, CREATED, Start)
    ensures Apply(ONE_NODE, CREATED, Start) == Sys(true, map["scf" := FRESH], {}, map[], RunRunning)
  {
  }

  lemma DispatchStep()
    ensures var s := Sys(true, map["scf" := FRESH], {}, map[], RunRunning);
            Enabled(ONE_NODE, s, Dispatch("scf")) && Apply(ONE_NODE, s, Dispatch("scf")) == Up(FIRST, Row(FIRST))
  {
    var s := Sys(true, map["scf" := FRESH], {}, map[], RunRunning);
    ScfResolves(s.nodes);
    assert StartNode(ONE_NODE, s.nodes, "scf") == Some(FIRST);
  }

  lemma FirstSteps(rest: seq<Step>)
    requires Runs(ONE_NODE, Up(FIRST, Row(FIRST)), rest)
    ensures Runs(ONE_NODE, CREATED, [Start] + ([Dispatch("scf")] + rest))
    ensures Exec(ONE_NODE, CREATED, [Start] + ([Dispatch("scf")] + rest)) == Exec(ONE_NODE, Up(FIRST, Row(FIRST)), rest)
  {
    var s := Sys(true, map["scf" := FRESH], {}, map[], RunRunning);
    DispatchStep();
    Prepend(s, Dispatch("scf"), Up(FIRST, Row(FIRST)), rest);
    StartStep();
    Prepend(CREATED, Start, s, [Dispatch("scf")] + rest);
  }

  lemma CancelStep()
    ensures Enabled(ONE_NODE, Up(FIRST, Row(FIRST)), Cancel)
    ensures Apply(ONE_NODE, Up(FIRST, Row(FIRST)), Cancel) == Sys(false, map[], {}, map["scf" := STOPPED], RunPaused)
  {
  }

  lemma ResumeCancelledStep()
    ensures var s := Sys(false, map[], {}, map["scf" := STOPPED], RunPaused);
            Enabled(ONE_NODE, s, Resume) && Apply(ONE_NODE, s, Resume) == Up(STOPPED, STOPPED)
  {
  }

  lemma CompleteStep()
    ensures Enabled(ONE_NODE, Up(STOPPED, STOPPED), Complete)
    ensures Apply(ONE_NODE, Up(STOPPED, STOPPED), Complete) ==
              Sys(false, map[], {}, map["scf" := STOPPED], RunCancelled)
  {
    assert StatesOf(ONE_NODE, Up(STOPPED, STOPPED).nodes) == [Cancelled];
  }

  /** Cancel a run with one node in flight and resume it: it ends at once, CANCELLED, the node never rerun. */
  lemma CancelledRunDoesNotResume()
    ensures var steps := [Start] + ([Dispatch("scf")] + ([Cancel] + ([Resume] + ([Complete] + []))));
            Runs(ONE_NODE, CREATED, steps) && Exec(ONE_NODE, CREATED, steps).status == RunCancelled
  {
    var paused := Sys(false, map[], {}, map["scf" := STOPPED], RunPaused);
    var done := Sys(false, map[], {}, map["scf" := STOPPED], RunCancelled);
    CompleteStep();
    Prepend(Up(STOPPED, STOPPED), Complete, done, []);
    ResumeCancelledStep();
    Prepend(paused, Resume, Up(STOPPED, STOPPED), [Complete] + []);
    CancelStep();
    Prepend(Up(FIRST, Row(FIRST)), Cancel, paused, [Resume] + ([Complete] + []));
    FirstSteps([Cancel] + ([Resume] + ([Complete] + [])));
  }

  const ERROR := ToolError("no convergence", "scf_not_converged", true)
  const NOT_CONVERGED := Failure(ERROR)
  const NO_NUMBERS := QERepair.Parser(_ => None, _ => None)
  const BUMP := QERepair.Repaired(NO_NUMBERS, DEFAULTS, ERROR)

  // A word whose first letter does not occur is not contained.
  lemma NotContained(text: string, word: string)
    requires word != "" && word[0] !in text
    ensures !QERepair.Contains(text, word)
  {
    forall i | 0 <= i <= |text|
      ensures !(word <= text[i..])
    {
      assert i < |text| ==> text[i..][0] == text[i];
    }
  }

  lemma BumpRaisesBothCutoffs()
    ensures BUMP == Fix(true, BUMPED)
  {
    var lowered := QERepair.Lowered(ERROR.message);
    assert 't' !in ERROR.message;
    assert 't' !in lowered by {
      forall i | 0 <= i < |lowered| ensures lowered[i] != 't' { assert ERROR.message[i] != 'T'; }
    }
    NotContained(ERROR.message, "too few bands");
    NotContained(lowered, "timed out");
    assert QERepair.KindOf(ERROR) == QERepair.Convergence;
    assert QERepair.Cutoff(NO_NUMBERS, DEFAULTS) == Some(45.0);
  }

  lemma RepairStep()
    ensures Enabled(ONE_NODE, Up(FIRST, Row(FIRST)), Finish("scf", NOT_CONVERGED, BUMP))
    ensures Apply(ONE_NODE, Up(FIRST, Row(FIRST)), Finish("scf", NOT_CONVERGED, BUMP)) == Up(REPAIRED, Row(REPAIRED))
  {
    BumpRaisesBothCutoffs();
    assert FinishNode(SCF, ["qe_param_bump"], FIRST, NOT_CONVERGED, BUMP) == REPAIRED;
    FinishApplies(ONE_NODE, Up(FIRST, Row(FIRST)), "scf", NOT_CONVERGED, BUMP);
  }

  lemma RedispatchStep()
    ensures Enabled(ONE_NODE, Up(REPAIRED, Row(REPAIRED)), Dispatch("scf"))
    ensures Apply(ONE_NODE, Up(REPAIRED, Row(REPAIRED)), Dispatch("scf")) == Up(SECOND, Row(SECOND))
  {
    assert StartNode(ONE_NODE, Up(REPAIRED, Row(REPAIRED)).nodes, "scf") == Some(SECOND);
  }

  lemma CrashStep()
    ensures Enabled(ONE_NODE, Up(SECOND, Row(SECOND)), Crash)
    ensures Apply(ONE_NODE, Up(SECOND, Row(SECOND)), Crash) ==
              Sys(false, map[], {}, map["scf" := Row(SECOND)], RunRunning)
  {
  }

  lemma ResumeRepairedStep()
    ensures var s := Sys(false, map[], {}, map["scf" := Row(SECOND)], RunRunning);
            Enabled(ONE_NODE, s, Resume) && Apply(ONE_NODE, s, Resume) == Up(RESUMED, Row(SECOND))
  {
  }

  lemma LastDispatchStep()
    ensures Enabled(ONE_NODE, Up(RESUMED, Row(SECOND)), Dispatch("scf"))
    ensures Apply(ONE_NODE, Up(RESUMED, Row(SECOND)), Dispatch("scf")) == Up(THIRD, Row(THIRD))
  {
    ScfResolves(Up(RESUMED, Row(SECOND)).nodes);
    assert StartNode(ONE_NODE, Up(RESUMED, Row(SECOND)).nodes, "scf") == Some(THIRD);
  }

  /**
   * The parameter repairer raises the cutoffs of a node, which runs with them when the process dies; resumed, it runs
   * again with the cutoff it had at first, its repair attempt spent.
   */
  lemma RepairIsLostInCrash()
    ensures var steps := [Start] + ([Dispatch("scf")] + ([Finish("scf", NOT_CONVERGED, BUMP)] +
                         ([Dispatch("scf")] + ([Crash] + ([Resume] + ([Dispatch("scf")] + []))))));
            && Runs(ONE_NODE, CREATED, steps)
            && Exec(ONE_NODE, CREATED, steps).nodes == map["scf" := THIRD]
            && THIRD.params == DEFAULTS != SECOND.params == BUMP.params && THIRD.repairs == 1
  {
    assert DEFAULTS["ecutwfc"] != BUMPED["ecutwfc"];
    BumpRaisesBothCutoffs();
    var down := Sys(false, map[], {}, map["scf" := Row(SECOND)], RunRunning);
    var last := [Resume] + ([Dispatch("scf")] + []);
    LastDispatchStep();
    Prepend(Up(RESUMED, Row(SECOND)), Dispatch("scf"), Up(THIRD, Row(THIRD)), []);
    ResumeRepairedStep();
    Prepend(down, Resume, Up(RESUMED, Row(SECOND)), [Dispatch("scf")] + []);
    CrashStep();
    Prepend(Up(SECOND, Row(SECOND)), Crash, down, last);
    RedispatchStep();
    Prepend(Up(REPAIRED, Row(REPAIRED)), Dispatch("scf"), Up(SECOND, Row(SECOND)), [Crash] + last);
    RepairStep();
    Prepend(Up(FIRST, Row(FIRST)), Finish("scf", NOT_CONVERGED, BUMP), Up(REPAIRED, Row(REPAIRED)),
            [Dispatch("scf")] + ([Crash] + last));
    FirstSteps([Finish("scf", NOT_CONVERGED, BUMP)] + ([Dispatch("scf")] + ([Crash] + last)));
  }
}
