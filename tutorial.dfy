/**
 * The step normaliser of the guided tour (`formatSteps` in
 * client/src/composable/useTutorial.ts, over the `IStep` record of
 * client/src/interfaces/tutorial.ts).
 */
module Tutorial {
  import opened Wrappers
  import opened Text

  /** `IStep`; the optional driver.js `align` and `side` values are kept as strings. */
  datatype Step = Step(
    targetId: string,
    imagePath: Option<string>,
    title: Option<string>,
    description: string,
    align: Option<string>,
    side: Option<string>)

  datatype Popover = Popover(align: Option<string>, description: string, side: Option<string>, title: Option<string>)

  /** The driver.js step `formatSteps` builds. */
  datatype DriveStep = DriveStep(element: string, popover: Popover)

  /** A `targetId` becomes an id selector: `#` is prefixed unless already there. */
  function Selector(targetId: string): (r: string)
    ensures StartsWith(r, "#")
    ensures StartsWith(targetId, "#") ==> r == targetId
    ensures !StartsWith(targetId, "#") ==> r == "#" + targetId
  {
    if StartsWith(targetId, "#") then targetId else "#" + targetId
  }

  function FormatStep(step: Step): DriveStep {
    DriveStep(Selector(step.targetId), Popover(step.align, step.description, step.side, step.title))
  }

  /** `formatSteps` */
  function FormatSteps(steps: seq<Step>): (r: seq<DriveStep>)
    ensures |r| == |steps|
    ensures forall i :: 0 <= i < |steps| ==> r[i] == FormatStep(steps[i])
  {
    seq(|steps|, i requires 0 <= i < |steps| => FormatStep(steps[i]))
  }

  /** The prefixing is idempotent. */
  lemma SelectorIdempotent(targetId: string)
    ensures Selector(Selector(targetId)) == Selector(targetId)
  {
  }

  /**
   * Every produced element is an id selector naming the step's target, and
   * the popover copies the step's texts; feeding the produced selectors back
   * as targets reproduces the same steps.
   */
  lemma FormatStepsSpec(steps: seq<Step>)
    ensures forall i :: 0 <= i < |steps| ==>
      var d := FormatSteps(steps)[i];
      StartsWith(d.element, "#")
      && (d.element == steps[i].targetId || d.element == "#" + steps[i].targetId)
      && d.popover == Popover(steps[i].align, steps[i].description, steps[i].side, steps[i].title)
    ensures var again := seq(|steps|, i requires 0 <= i < |steps| => steps[i].(targetId := FormatSteps(steps)[i].element));
      FormatSteps(again) == FormatSteps(steps)
  {
    var again := seq(|steps|, i requires 0 <= i < |steps| => steps[i].(targetId := FormatSteps(steps)[i].element));
    forall i | 0 <= i < |steps|
      ensures FormatSteps(again)[i] == FormatSteps(steps)[i]
    {
      SelectorIdempotent(steps[i].targetId);
    }
  }
}
