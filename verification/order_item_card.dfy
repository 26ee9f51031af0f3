/** The card of one order item (`src/components/OrderItemCard.tsx`): its
    `currentStep`, `currentStatus` and `isUpdating` state and the handlers that
    change them, each conditional on the store's answer to one write of the
    item's row. */
module OrderItemCard {
  import opened Wrappers
  import opened MockData

  /** The fields of one `order_items` update: `stepIndex` is `None` when the
      write leaves `current_step_index` alone. */
  datatype ItemUpdate = ItemUpdate(stepIndex: Option<int>, status: Status)

  /** Whether `handleNextStep` has a step to move to. */
  predicate HasNextStep(steps: seq<string>, step: int)
    // From a step that is on the list (or just before it), the next step exists.
    ensures HasNextStep(steps, step) && step >= -1 ==> 0 <= step + 1 < |steps|
    ensures !HasNextStep(steps, step) ==> step >= |steps| - 1
  {
    step < |steps| - 1
  }

  /** The item's progress after one click of "next step" answered by the store
      with `writeOk`: unchanged on the last step or when the write fails. */
  function Advance(steps: seq<string>, step: int, status: Status, writeOk: bool): (r: (int, Status))
    ensures !HasNextStep(steps, step) || !writeOk ==> r == (step, status)
    ensures HasNextStep(steps, step) && writeOk ==> r.0 == step + 1 && r.1 == StatusAfterAdvance(status)
  {
    if HasNextStep(steps, step) && writeOk then (step + 1, StatusAfterAdvance(status)) else (step, status)
  }

  /** From a step on the list (or before it), advancing never leaves the list:
      the last index is a ceiling. */
  lemma AdvanceStaysOnSteps(steps: seq<string>, step: int, status: Status, writeOk: bool)
    requires step <= |steps| - 1
    ensures Advance(steps, step, status, writeOk).0 <= |steps| - 1
    ensures Advance(steps, step, status, writeOk).0 >= step
  {
  }

  class ItemCard {
    const id: string
    const steps: seq<string>
    var currentStep: int
    var currentStatus: Status
    var isUpdating: bool

    /** The card as first rendered from its props. */
    constructor (id: string, steps: seq<string>, status: Status, currentStepIndex: int)
      ensures this.id == id && this.steps == steps
      ensures currentStep == currentStepIndex && currentStatus == status && !isUpdating
    {
      this.id := id;
      this.steps := steps;
      currentStep := currentStepIndex;
      currentStatus := status;
      isUpdating := false;
    }

    /** `handleNextStep`: a no-op on the last step (no write); otherwise writes
        the next index and the started status, and adopts them if the write
        succeeded. */
    method NextStep(writeOk: bool) returns (sent: Option<ItemUpdate>)
      modifies this
      ensures !HasNextStep(steps, old(currentStep)) ==>
        sent.None? && currentStep == old(currentStep) && currentStatus == old(currentStatus)
        && isUpdating == old(isUpdating)
      ensures HasNextStep(steps, old(currentStep)) ==>
        sent == Some(ItemUpdate(Some(old(currentStep) + 1), StatusAfterAdvance(old(currentStatus))))
        && !isUpdating
      ensures (currentStep, currentStatus) == Advance(steps, old(currentStep), old(currentStatus), writeOk)
    {
      if currentStep >= |steps| - 1 {
        return None;
      }
      isUpdating := true;
      var newStepIndex := currentStep + 1;
      var updatedStatus := currentStatus;
      if currentStatus == EnAttente {
        updatedStatus := EnCours;
      }
      sent := Some(ItemUpdate(Some(newStepIndex), updatedStatus));
      if writeOk {
        currentStep := newStepIndex;
        if updatedStatus != currentStatus {
          currentStatus := updatedStatus;
        }
      }
      isUpdating := false;
    }

    /** `handleStatusChange`: setting the current status is a no-op with no
        write; otherwise only the status is written, and adopted if the write
        succeeded. The step never changes. */
    method StatusChange(newStatus: Status, writeOk: bool) returns (sent: Option<ItemUpdate>)
      modifies this
      ensures currentStep == old(currentStep)
      ensures newStatus == old(currentStatus) ==>
        sent.None? && currentStatus == old(currentStatus) && isUpdating == old(isUpdating)
      ensures newStatus != old(currentStatus) ==>
        sent == Some(ItemUpdate(None, newStatus)) && !isUpdating
        && currentStatus == (if writeOk then newStatus else old(currentStatus))
    {
      if newStatus == currentStatus {
        return None;
      }
      isUpdating := true;
      sent := Some(ItemUpdate(None, newStatus));
      if writeOk {
        currentStatus := newStatus;
      }
      isUpdating := false;
    }

    /** The mount effect: an item already past its first step but still waiting
        is moved to "in progress". */
    method Mount(writeOk: bool) returns (sent: Option<ItemUpdate>)
      modifies this
      ensures currentStep == old(currentStep)
      ensures old(currentStep) > 0 && old(currentStatus) == EnAttente ==>
        sent == Some(ItemUpdate(None, EnCours))
        && currentStatus == (if writeOk then EnCours else EnAttente) && !isUpdating
      ensures !(old(currentStep) > 0 && old(currentStatus) == EnAttente) ==>
        sent.None? && currentStatus == old(currentStatus) && isUpdating == old(isUpdating)
    {
      sent := None;
      if currentStep > 0 && currentStatus == EnAttente {
        sent := StatusChange(EnCours, writeOk);
      }
    }
  }
}
