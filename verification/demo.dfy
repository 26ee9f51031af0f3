/** The demonstration page (`src/pages/Demo.tsx`): one item with five fixed
    steps whose `status` and `currentStep` live in the page and are driven by
    the progress strip's callbacks. */
module Demo {
  import opened MockData
  import OrderProgress

  const Steps: seq<string> := ["Conception", "Impression", "Pelliculage", "Découpe", "Emballage"]
  const LastStep := |Steps| - 1

  datatype DemoState = DemoState(status: Status, currentStep: int)

  const Initial := DemoState(EnAttente, 0)

  /** The page's handlers: `handleNextStep` advances below the last step and
      completes the item on it; `handleStatusChange` sets the status. */
  function Apply(s: DemoState, call: OrderProgress.Callback): (r: DemoState)
    ensures call.StatusChangeCall? ==> r == s.(status := call.status)
    ensures call.NextStepCall? && s.currentStep < LastStep ==> r == s.(currentStep := s.currentStep + 1)
    ensures call.NextStepCall? && s.currentStep >= LastStep ==> r == s.(status := Termine)
  {
    match call
    case StatusChangeCall(st) => s.(status := st)
    case NextStepCall =>
      if s.currentStep < LastStep then s.(currentStep := s.currentStep + 1) else s.(status := Termine)
  }

  /** The callbacks of one click, applied in order. The second handler reads
      the step of the render the click happened in, which no status change
      before it alters, so applying them one after the other is faithful. */
  function ApplyAll(s: DemoState, calls: seq<OrderProgress.Callback>): DemoState
    decreases |calls|
  {
    if calls == [] then s else ApplyAll(Apply(s, calls[0]), calls[1..])
  }

  /** The step index never leaves the step list. */
  predicate Valid(s: DemoState) {
    0 <= s.currentStep <= LastStep
  }

  lemma {:induction false} ApplyAllValid(s: DemoState, calls: seq<OrderProgress.Callback>)
    requires Valid(s)
    ensures Valid(ApplyAll(s, calls))
    ensures ApplyAll(s, calls).currentStep >= s.currentStep
    decreases |calls|
  {
    if calls != [] {
      ApplyAllValid(Apply(s, calls[0]), calls[1..]);
    }
  }

  /** The state after a click on `button` in state `s`. */
  function Clicked(s: DemoState, button: OrderProgress.Button): DemoState {
    ApplyAll(s, OrderProgress.Click(button, s.status))
  }

  /** Whether `button` is on screen in state `s`. */
  predicate Shown(s: DemoState, button: OrderProgress.Button) {
    var b := OrderProgress.VisibleButtons(Steps, s.currentStep, s.status);
    match button
    case Start => b.start
    case Advance => b.advance
    case Finish => b.finish
  }

  /** Every click on a shown button makes progress: it moves to the next step
      (an item that was waiting is then in progress), or on the last step it
      completes the item. */
  lemma ClickProgresses(s: DemoState, button: OrderProgress.Button)
    requires Valid(s) && Shown(s, button)
    ensures Valid(Clicked(s, button))
    ensures s.currentStep < LastStep ==>
              Clicked(s, button) == DemoState(EnCours, s.currentStep + 1)
    ensures s.currentStep == LastStep ==>
              Clicked(s, button) == DemoState(Termine, LastStep)
  {
    var calls := OrderProgress.Click(button, s.status);
    ApplyAllValid(s, calls);
    if |calls| == 2 {
      var s1 := Apply(s, calls[0]);
      assert calls[1..] == [OrderProgress.NextStepCall];
      assert ApplyAll(s1, calls[1..]) == ApplyAll(Apply(s1, OrderProgress.NextStepCall), []);
    } else {
      assert calls == [OrderProgress.NextStepCall];
      assert ApplyAll(s, calls) == ApplyAll(Apply(s, OrderProgress.NextStepCall), []);
    }
  }

  /** A completed item shows no button, so the demonstration ends there. */
  lemma CompletedIsFinal(s: DemoState, button: OrderProgress.Button)
    requires s.status == Termine
    ensures !Shown(s, button)
  {
  }

  /** From the initial state, "Démarrer", three advances and "Terminer"
      complete the item on its last step. */
  lemma Walkthrough()
    ensures Shown(Initial, OrderProgress.Start)
    ensures Clicked(Initial, OrderProgress.Start) == DemoState(EnCours, 1)
    ensures var s4 := DemoState(EnCours, LastStep);
            Shown(s4, OrderProgress.Finish) && !Shown(s4, OrderProgress.Advance)
            && Clicked(s4, OrderProgress.Finish) == DemoState(Termine, LastStep)
  {
    ClickProgresses(Initial, OrderProgress.Start);
    ClickProgresses(DemoState(EnCours, LastStep), OrderProgress.Finish);
  }

  /** `k` next-step callbacks, each a call of `handleNextStep`. */
  function Advances(k: nat): (calls: seq<OrderProgress.Callback>)
    ensures |calls| == k && forall i :: 0 <= i < k ==> calls[i] == OrderProgress.NextStepCall
  {
    if k == 0 then [] else [OrderProgress.NextStepCall] + Advances(k - 1)
  }

  /** Advancing once more than there are steps left completes the item on
      its last step, whatever its status. */
  lemma {:induction false} AdvancesComplete(s: DemoState, k: nat)
    requires Valid(s) && s.currentStep + k == LastStep + 1
    ensures ApplyAll(s, Advances(k)) == DemoState(Termine, LastStep)
    decreases k
  {
    var calls := Advances(k);
    assert calls[1..] == Advances(k - 1);
    if k == 1 {
      assert ApplyAll(s, calls) == ApplyAll(Apply(s, OrderProgress.NextStepCall), []);
    } else {
      AdvancesComplete(Apply(s, OrderProgress.NextStepCall), k - 1);
    }
  }

  /** From the first step, the fifth advance always leaves the item
      complete. */
  lemma FifthAdvanceCompletes(status: Status)
    ensures ApplyAll(DemoState(status, 0), Advances(5)) == DemoState(Termine, LastStep)
  {
    AdvancesComplete(DemoState(status, 0), 5);
  }

  /** The page's state. */
  class DemoPage {
    var status: Status
    var currentStep: int

    constructor ()
      ensures status == Initial.status && currentStep == Initial.currentStep
    {
      status := EnAttente;
      currentStep := 0;
    }

    function State(): DemoState
      reads this
    {
      DemoState(status, currentStep)
    }

    /** `handleNextStep`. */
    method NextStep()
      modifies this
      ensures State() == Apply(old(State()), OrderProgress.NextStepCall)
    {
      if currentStep < |Steps| - 1 {
        currentStep := currentStep + 1;
      } else {
        status := Termine;
      }
    }

    /** `handleStatusChange`. */
    method StatusChange(newStatus: Status)
      modifies this
      ensures State() == Apply(old(State()), OrderProgress.StatusChangeCall(newStatus))
    {
      status := newStatus;
    }
  }
}
