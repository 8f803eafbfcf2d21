/** `_apply_page_methods`: the request's page methods, run in order against
    the page. */
module Scripting {
  import opened Common
  import opened Engine
  import opened PageMethods

  /** The step calls a method the page has. */
  predicate Runs(page: Page, step: Step)
  {
    step.Call? && step.pm.methodName in page.methodNames
  }

  /** What calling the step's method gives, including the load-state wait. */
  function Invoked(page: Page, step: Step): Outcome<Value>
    requires step.Call?
  {
    page.invoke(step.pm.methodName, step.pm.args, step.pm.kwargs)
  }

  predicate Fails(page: Page, step: Step)
  {
    Runs(page, step) && Invoked(page, step).Raised?
  }

  /** Position of the first step that runs and raises, `|steps|` if none. */
  function FailureIndex(page: Page, steps: seq<Step>): (k: nat)
    ensures k <= |steps|
    ensures k < |steps| ==> Fails(page, steps[k])
    ensures forall j :: 0 <= j < k ==> !Fails(page, steps[j])
  {
    if steps == [] then 0
    else if Fails(page, steps[0]) then 0
    else 1 + FailureIndex(page, steps[1..])
  }

  /** The error the steps raise, if any. */
  function StepsFailure(page: Page, steps: seq<Step>): (r: Option<Error>)
    ensures r.None? <==> forall j :: 0 <= j < |steps| ==> !Fails(page, steps[j])
    ensures r.Some? ==>
      var k := FailureIndex(page, steps);
      k < |steps| && Fails(page, steps[k]) && r.value == Invoked(page, steps[k]).error
  {
    var k := FailureIndex(page, steps);
    if k < |steps| then Some(Invoked(page, steps[k]).error) else None
  }

  function StepObjects(steps: seq<Step>): set<PageMethod>
  {
    set i | 0 <= i < |steps| && steps[i].Call? :: steps[i].pm
  }

  /** `pm` is the descriptor of a step before position `n` that ran. */
  ghost predicate RanBefore(page: Page, steps: seq<Step>, n: nat, pm: PageMethod)
  {
    exists i :: 0 <= i < n && i < |steps| && steps[i] == Call(pm) && pm.methodName in page.methodNames
  }

  /** The results stored in the steps' descriptors, in step order;
      `NoneValue` stands in for a step that is not a `PageMethod`. */
  ghost function Results(steps: seq<Step>): (r: seq<Value>)
    reads StepObjects(steps)
    ensures |r| == |steps|
  {
    seq(|steps|, i requires 0 <= i < |steps| reads StepObjects(steps) =>
      if steps[i].Call? then steps[i].pm.result else NoneValue)
  }

  /** The descriptors once the steps were run against `page` (when `ran`):
      a descriptor whose step ran before the first failure holds what its
      call returned, every other keeps its result from `before`. */
  ghost predicate ResultsAfter(page: Page, steps: seq<Step>, ran: bool, before: seq<Value>)
    requires |before| == |steps|
    reads StepObjects(steps)
  {
    forall i :: 0 <= i < |steps| && steps[i].Call? ==>
      var pm := steps[i].pm;
      pm.result == if ran && RanBefore(page, steps, FailureIndex(page, steps), pm)
                   then page.invoke(pm.methodName, pm.args, pm.kwargs).value
                   else before[i]
  }

  /** Runs the steps in order: a step that is not a `PageMethod`, or names a
      method the page does not have, is skipped; the others are called and
      their results stored, until one raises, which ends the run with its
      error. */
  method ApplyPageMethods(page: Page, steps: seq<Step>) returns (failure: Option<Error>)
    modifies StepObjects(steps)
    ensures failure == StepsFailure(page, steps)
    ensures forall i :: 0 <= i < |steps| && steps[i].Call? ==>
      var pm := steps[i].pm;
      pm.result == if RanBefore(page, steps, FailureIndex(page, steps), pm)
                   then page.invoke(pm.methodName, pm.args, pm.kwargs).value
                   else old(pm.result)
  {
    var i := 0;
    while i < |steps|
      invariant 0 <= i <= FailureIndex(page, steps)
      invariant forall j :: 0 <= j < |steps| && steps[j].Call? ==>
        var pm := steps[j].pm;
        pm.result == if RanBefore(page, steps, i, pm)
                     then page.invoke(pm.methodName, pm.args, pm.kwargs).value
                     else old(pm.result)
    {
      var step := steps[i];
      if step.Call? && step.pm.methodName in page.methodNames {
        var pm := step.pm;
        var outcome := page.invoke(pm.methodName, pm.args, pm.kwargs);
        if outcome.Raised? {
          assert Fails(page, steps[i]);
          return Some(outcome.error);
        }
        pm.result := outcome.value;
        assert RanBefore(page, steps, i + 1, pm);
      }
      i := i + 1;
    }
    return None;
  }
}
