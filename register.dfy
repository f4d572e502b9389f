/**
 * The registration wizard: the three-step counter with its Back and
 * Next/"Create Account" buttons, the gene-key selection capped at three,
 * the interest chips and the fixed option lists.
 */
module Register {
  import opened Wrappers
  import Seqs

  const Steps: seq<string> := ["Basic Information", "Values & Interests", "Complete Profile"]

  const LastStep := |Steps| - 1

  /** Gene keys 1 to 64. */
  const GeneKeyOptions: seq<int> := seq(64, i => i + 1)

  const Digits := "0123456789"

  /** "Type 1" to "Type 9". */
  const EnneagramOptions: seq<string> := seq(9, i requires 0 <= i < 9 => "Type " + [Digits[i + 1]])

  const Interests: seq<string> := [
    "Regenerative Agriculture", "Permaculture", "Holistic Health", "Sacred Medicine", "Community Building",
    "Ocean Conservation", "Renewable Energy", "Sustainable Fashion", "Zero Waste Living", "Forest Restoration"]

  /** The gene-key menu offers exactly the numbers 1 to 64, in order; the enneagram menu nine distinct types. */
  lemma OptionFacts()
    ensures |GeneKeyOptions| == 64
    ensures forall k :: k in GeneKeyOptions <==> 1 <= k <= 64
    ensures forall i :: 0 <= i < 64 ==> GeneKeyOptions[i] == i + 1
    ensures |EnneagramOptions| == 9
    ensures forall i :: 0 <= i < 9 ==> EnneagramOptions[i][..5] == "Type " && |EnneagramOptions[i]| == 6
    ensures forall i, j :: 0 <= i < j < 9 ==> EnneagramOptions[i] != EnneagramOptions[j]
  {
    forall k | 1 <= k <= 64 ensures k in GeneKeyOptions {
      assert GeneKeyOptions[k - 1] == k;
    }
    forall i, j | 0 <= i < j < 9 ensures EnneagramOptions[i] != EnneagramOptions[j] {
      assert EnneagramOptions[i][5] == Digits[i + 1] != Digits[j + 1] == EnneagramOptions[j][5];
    }
  }

  // ---------------------------------------------------------------- the step counter

  /** The two buttons under the form. */
  datatype Click = Back | Primary

  /** The step after a click: Back is disabled at step 0; the primary button submits at the last step. */
  function StepAfter(step: int, click: Click): int {
    match click
    case Back => if step == 0 then step else step - 1
    case Primary => if step == LastStep then step else step + 1
  }

  function StepAfterAll(step: int, clicks: seq<Click>): int
    decreases |clicks|
  {
    if clicks == [] then step else StepAfterAll(StepAfter(step, clicks[0]), clicks[1..])
  }

  /** Every click moves the step by at most one and keeps it within 0..2. */
  lemma StepAfterFacts(step: int, click: Click)
    requires 0 <= step <= LastStep
    ensures 0 <= StepAfter(step, click) <= LastStep
    ensures click == Back ==> StepAfter(step, click) == if step == 0 then 0 else step - 1
    ensures click == Primary && step < LastStep ==> StepAfter(step, click) == step + 1
  {
  }

  /** From any step in range, any run of clicks stays within 0..2. */
  lemma {:induction false} StepStaysInRange(step: int, clicks: seq<Click>)
    requires 0 <= step <= LastStep
    ensures 0 <= StepAfterAll(step, clicks) <= LastStep
    decreases |clicks|
  {
    if clicks != [] {
      StepAfterFacts(step, clicks[0]);
      StepStaysInRange(StepAfter(step, clicks[0]), clicks[1..]);
    }
  }

  /** Pressing Next n times from the first step, n at most 2, reaches step n. */
  lemma {:induction false} NextReaches(step: int, n: nat)
    requires 0 <= step && step + n <= LastStep
    ensures StepAfterAll(step, seq(n, _ => Primary)) == step + n
    decreases n
  {
    if n > 0 {
      var clicks := seq(n, _ => Primary);
      assert clicks[1..] == seq(n - 1, _ => Primary);
      NextReaches(step + 1, n - 1);
    }
  }

  /** The form shown for a step: nothing for a step outside 0..2. */
  datatype StepContent = BasicInformation | ValuesAndInterests | CompleteProfile

  function ContentFor(step: int): (r: Option<StepContent>)
    ensures r.Some? <==> 0 <= step <= LastStep
  {
    if step == 0 then Some(BasicInformation)
    else if step == 1 then Some(ValuesAndInterests)
    else if step == 2 then Some(CompleteProfile)
    else None
  }

  /** The wizard's step counter, updated by `setActiveStep(prev => prev ± 1)`. */
  class Stepper {
    var activeStep: int

    ghost predicate Valid()
      reads this
    {
      0 <= activeStep <= LastStep
    }

    constructor ()
      ensures activeStep == 0 && Valid()
    {
      activeStep := 0;
    }

    /** `handleNext`. */
    method HandleNext()
      modifies this
      ensures activeStep == old(activeStep) + 1
    {
      activeStep := activeStep + 1;
    }

    /** `handleBack`. */
    method HandleBack()
      modifies this
      ensures activeStep == old(activeStep) - 1
    {
      activeStep := activeStep - 1;
    }

    /** The Back button: disabled at step 0. */
    method ClickBack()
      modifies this
      ensures activeStep == StepAfter(old(activeStep), Back)
      ensures old(Valid()) ==> Valid()
    {
      if activeStep != 0 {
        HandleBack();
      }
    }

    /** The primary button: "Create Account" at the last step, which submits and leaves the step alone; "Next" before it. */
    method ClickPrimary() returns (submitted: bool)
      modifies this
      ensures submitted <==> old(activeStep) == LastStep
      ensures activeStep == StepAfter(old(activeStep), Primary)
      ensures old(Valid()) ==> Valid()
    {
      submitted := activeStep == LastStep;
      if !submitted {
        HandleNext();
      }
    }
  }

  // ---------------------------------------------------------------- selections

  /** The gene-key menu's change handler: a new selection of more than three keys is ignored. */
  function GeneKeysAfterChange(current: seq<int>, value: seq<int>): (r: seq<int>)
    ensures |value| <= 3 ==> r == value
    ensures |value| > 3 ==> r == current
    ensures |current| <= 3 ==> |r| <= 3
  {
    if |value| <= 3 then value else current
  }

  /** A run of changes ends on the starting keys or on one of the selections made; from at most three keys it keeps at most three. */
  function GeneKeysAfterAll(current: seq<int>, values: seq<seq<int>>): (r: seq<int>)
    ensures |current| <= 3 ==> |r| <= 3
    ensures r == current || exists i :: 0 <= i < |values| && r == values[i]
    decreases |values|
  {
    if values == [] then current else GeneKeysAfterAll(GeneKeysAfterChange(current, values[0]), values[1..])
  }

  /**
   * Clicking an interest chip removes the interest when selected and
   * appends it otherwise; clicking twice gives back the same selection.
   */
  lemma InterestToggle(selected: seq<string>, interest: string)
    ensures interest in Seqs.Toggle(selected, interest) <==> interest !in selected
    ensures forall other :: other != interest ==> (other in Seqs.Toggle(selected, interest) <==> other in selected)
    ensures forall x :: x in Seqs.Toggle(Seqs.Toggle(selected, interest), interest) <==> x in selected
    ensures interest !in selected ==> Seqs.Toggle(Seqs.Toggle(selected, interest), interest) == selected
  {
    Seqs.ToggleTwice(selected, interest);
  }
}
