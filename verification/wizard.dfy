/**
  The wizard's step cursor and progress bar. The cursor indexes
  `SurveyConfig.Steps`; the progress bar is kept as its own piece of state,
  set explicitly on every move, exactly as the form component does.
 */
module Wizard {
  import opened SurveyConfig

  datatype Wizard = Wizard(currentStep: int, progress: int)

  /** The cursor is on a real step and the bar shows that step's share of 100. */
  ghost predicate Valid(w: Wizard) {
    && 0 <= w.currentStep <= LastStep
    && w.progress == (w.currentStep + 1) * 25
  }

  /** State on mount, and again after "Submit Another Response". */
  const Initial: Wizard := Wizard(0, 25)

  /**
    "Next": moves forward unless already on the last step. The new progress
    is computed from the old cursor, as `(currentStep + 2) * 25`.
   */
  function Next(w: Wizard): (r: Wizard)
    ensures w.currentStep < LastStep ==> r.currentStep == w.currentStep + 1
    ensures w.currentStep < LastStep ==> r.progress == (r.currentStep + 1) * 25
    ensures w.currentStep >= LastStep ==> r == w
    ensures Valid(w) ==> Valid(r)
  {
    if w.currentStep < |Steps| - 1 then Wizard(w.currentStep + 1, (w.currentStep + 2) * 25)
    else w
  }

  /** "Previous": moves back unless already on the first step; progress is `currentStep * 25`. */
  function Prev(w: Wizard): (r: Wizard)
    ensures w.currentStep > 0 ==> r.currentStep == w.currentStep - 1
    ensures w.currentStep > 0 ==> r.progress == (r.currentStep + 1) * 25
    ensures w.currentStep <= 0 ==> r == w
    ensures Valid(w) ==> Valid(r)
  {
    if w.currentStep > 0 then Wizard(w.currentStep - 1, w.currentStep * 25) else w
  }

  /** The heading shown for the current step. */
  function Title(w: Wizard): (t: string)
    requires Valid(w)
    ensures t == ["Your Information", "Your Experience", "Your Feedback", "Share Photos"][w.currentStep]
  {
    Steps[w.currentStep].title
  }

  datatype Move = Forward | Back | Restart

  function Apply(w: Wizard, m: Move): Wizard {
    match m
    case Forward => Next(w)
    case Back => Prev(w)
    case Restart => Initial
  }

  function Run(w: Wizard, ms: seq<Move>): Wizard
    decreases |ms|
  {
    if |ms| == 0 then w else Run(Apply(w, ms[0]), ms[1..])
  }

  /** Whatever the user clicks, the cursor stays in [0, 3] and the bar matches it. */
  lemma {:induction false} RunPreservesValid(w: Wizard, ms: seq<Move>)
    requires Valid(w)
    ensures Valid(Run(w, ms))
    ensures 0 <= Run(w, ms).currentStep <= 3
    ensures 25 <= Run(w, ms).progress <= 100
    decreases |ms|
  {
    if |ms| > 0 {
      RunPreservesValid(Apply(w, ms[0]), ms[1..]);
    }
  }

  /** Going forward and then back returns to the same state, away from the last step. */
  lemma NextThenPrev(w: Wizard)
    requires Valid(w) && w.currentStep < LastStep
    ensures Prev(Next(w)) == w
  {
  }

  /** Going back and then forward returns to the same state, away from the first step. */
  lemma PrevThenNext(w: Wizard)
    requires Valid(w) && w.currentStep > 0
    ensures Next(Prev(w)) == w
  {
  }

  function Forwards(n: nat): seq<Move>
    ensures |Forwards(n)| == n
  {
    if n == 0 then [] else [Forward] + Forwards(n - 1)
  }

  /** `n` clicks on "Next" from any valid state saturate at the last step. */
  lemma {:induction false} ForwardsSaturate(w: Wizard, n: nat)
    requires Valid(w)
    ensures Run(w, Forwards(n)).currentStep
         == if w.currentStep + n <= LastStep then w.currentStep + n else LastStep
    ensures Valid(Run(w, Forwards(n)))
    decreases n
  {
    if n > 0 {
      assert Forwards(n)[0] == Forward && Forwards(n)[1..] == Forwards(n - 1);
      ForwardsSaturate(Next(w), n - 1);
    }
  }

  /** Three advances reach cursor 3 / progress 100; one retreat then gives 2 / 75. */
  lemma AdvanceThreeThenBack()
    ensures Run(Initial, [Forward, Forward, Forward]) == Wizard(3, 100)
    ensures Run(Initial, [Forward, Forward, Forward, Back]) == Wizard(2, 75)
    ensures Run(Initial, [Forward, Forward, Forward, Forward]) == Wizard(3, 100)
  {
    assert Run(Initial, [Forward, Forward, Forward]) == Run(Wizard(1, 50), [Forward, Forward]);
    assert Run(Initial, [Forward, Forward, Forward, Back])
        == Run(Wizard(1, 50), [Forward, Forward, Back]);
    assert Run(Initial, [Forward, Forward, Forward, Forward])
        == Run(Wizard(1, 50), [Forward, Forward, Forward]);
  }
}
