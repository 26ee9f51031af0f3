/** The progress strip of an order item (`src/components/OrderProgress.tsx`):
    how each step is drawn, which of the three action buttons are offered,
    and which parent callbacks each click and the auto-start effect invoke,
    in order. The component holds no state of its own. */
module OrderProgress {
  import opened MockData

  /** One call into the parent: `onStatusChange(status)` or `onNextStep()`. */
  datatype Callback = StatusChangeCall(status: Status) | NextStepCall

  const FinishedName := "Terminé"

  /** `getNextStepName`: the name of the step after `currentStep`, or
      "Terminé" when there is none. */
  function NextStepName(steps: seq<string>, currentStep: int): (name: string)
    ensures -1 <= currentStep < |steps| - 1 ==> name == steps[currentStep + 1]
    ensures currentStep >= |steps| - 1 ==> name == FinishedName
    // `steps[i]` at a negative `i` is `undefined`, read here as the empty name.
    ensures currentStep < -1 ==> name == ""
  {
    if currentStep < |steps| - 1 then
      if currentStep + 1 >= 0 then steps[currentStep + 1] else ""
    else FinishedName
  }

  /** How one step's circle is drawn. */
  datatype StepLook = Done | Active | Pending

  /** The circle of step `stepIndex`: checked once passed or when the item is
      complete; pulsing blue on the current step of an item in progress. */
  function Look(status: Status, currentStep: int, stepIndex: int): (look: StepLook)
    ensures look == Done <==> currentStep > stepIndex || status == Termine
    ensures look == Active <==> currentStep == stepIndex && status == EnCours
  {
    if currentStep > stepIndex || status == Termine then Done
    else if currentStep == stepIndex && status != Annule && status != Reporte && status != EnAttente then
      assert status == EnCours;
      Active
    else Pending
  }

  /** The checked steps form a prefix, and at most one step pulses. */
  lemma LooksAreOrdered(status: Status, currentStep: int, i: int, j: int)
    requires i <= j
    ensures Look(status, currentStep, j) == Done ==> Look(status, currentStep, i) == Done
    ensures Look(status, currentStep, i) == Active && Look(status, currentStep, j) == Active ==> i == j
  {
  }

  /** The buttons offered under the strip. */
  datatype Buttons = Buttons(start: bool, advance: bool, finish: bool)

  /** Whether any button is shown at all: not for a complete, cancelled or postponed item. */
  predicate Actionable(status: Status)
    ensures Actionable(status) <==> status == EnAttente || status == EnCours
  {
    status != Termine && status != Annule && status != Reporte
  }

  function VisibleButtons(steps: seq<string>, currentStep: int, status: Status): (b: Buttons)
    ensures b.start <==> status == EnAttente && currentStep == 0
    ensures b.advance <==> (status == EnCours || (status == EnAttente && currentStep > 0))
                           && currentStep < |steps| - 1
    ensures b.finish <==> Actionable(status) && currentStep >= |steps| - 1
  {
    if !Actionable(status) then Buttons(false, false, false)
    else Buttons(
      status == EnAttente && currentStep == 0,
      (status == EnCours || (status == EnAttente && currentStep > 0)) && currentStep < |steps| - 1,
      currentStep >= |steps| - 1)
  }

  /** The advance button never shows beside another one; "Démarrer" and
      "Terminer" show together exactly for a waiting item at step 0 whose
      product has at most one step. */
  lemma ButtonsExclusive(steps: seq<string>, currentStep: int, status: Status)
    ensures var b := VisibleButtons(steps, currentStep, status);
            !(b.advance && b.start) && !(b.advance && b.finish)
    ensures var b := VisibleButtons(steps, currentStep, status);
            b.start && b.finish <==> status == EnAttente && currentStep == 0 && |steps| <= 1
  {
  }

  /** An actionable item at a non-negative step always offers a button. */
  lemma SomeButtonOffered(steps: seq<string>, currentStep: int, status: Status)
    requires Actionable(status) && currentStep >= 0
    ensures var b := VisibleButtons(steps, currentStep, status);
            b.start || b.advance || b.finish
  {
  }

  /** The three buttons: "Démarrer", "Passer à …" and "Terminer". */
  datatype Button = Start | Advance | Finish

  /** The callbacks one click invokes, in order: "Démarrer"
      (`handleFirstButtonClick`) starts the item and advances; the advance
      button starts a waiting item first; "Terminer" only advances. */
  function Click(button: Button, status: Status): (calls: seq<Callback>)
    // Every click ends with exactly one `onNextStep` ...
    ensures |calls| >= 1 && calls[|calls| - 1] == NextStepCall
    ensures forall k :: 0 <= k < |calls| - 1 ==> calls[k] != NextStepCall
    // ... and any status it sets before that is "en_cours".
    ensures forall k :: 0 <= k < |calls| - 1 ==> calls[k] == StatusChangeCall(EnCours)
    ensures |calls| <= 2
    ensures |calls| == 2 <==> button == Start || (button == Advance && status == EnAttente)
  {
    match button
    case Start => [StatusChangeCall(EnCours), NextStepCall]
    case Advance => if status == EnAttente then [StatusChangeCall(EnCours), NextStepCall] else [NextStepCall]
    case Finish => [NextStepCall]
  }

  /** The effect run after each render. */
  function AutoStart(currentStep: int, status: Status): (calls: seq<Callback>)
    ensures calls != [] <==> currentStep > 0 && status == EnAttente
    ensures calls != [] ==> calls == [StatusChangeCall(EnCours)]
  {
    if currentStep > 0 && status == EnAttente then [StatusChangeCall(EnCours)] else []
  }
}
