/** The order detail page (`src/pages/OrderDetail.tsx`): the label rule that
    names the history entry written for a status change, the status-change
    and next-step handlers that read-modify-write the page's `order` state,
    the "current step" message and the flags that choose the action buttons.

    The page follows the order's single main product (`order.products`):
    `steps` is `None` when no product is joined and `Some(process_steps)`
    otherwise, a product whose `process_steps` is missing counting as one
    with no steps. */
module OrderDetail {
  import opened Wrappers
  import opened MockData

  const NoStepsLabel := "Finalisé (sans étapes définies)"
  const InitiatedLabel := "Traitement initié"
  const CompletionLabel := "Finalisation"
  const NoProductCompletionLabel := "Finalisation (produit non spécifié)"

  /** The steps of the order's main product, as the page sees them. */
  function MainSteps(product: Option<Product>): (steps: Option<seq<string>>)
    ensures steps.Some? <==> product.Some?
    ensures product.Some? ==> steps.value == product.value.steps
  {
    match product
    case None => None
    case Some(p) => Some(p.steps)
  }

  /** Whether `index` designates one of the steps. */
  predicate OnStep(steps: seq<string>, index: int) {
    0 <= index < |steps|
  }

  /** The `step` text of the history entry `handleStatusChange` appends when
      the order goes from `oldStatus` to `newStatus` while at `index`. */
  function StatusChangeLabel(oldStatus: Status, newStatus: Status, steps: Option<seq<string>>, index: int): (text: string)
    // Completing a product without steps, whatever the index.
    ensures steps == Some([]) && newStatus == Termine ==> text == NoStepsLabel
    // "Traitement initié" is written for, and only for, starting a product without steps.
    ensures text == InitiatedLabel && InitiatedLabel !in steps.GetOr([])
            <==> steps == Some([]) && oldStatus == EnAttente && newStatus == EnCours
    // On a valid step, the step's name, for any new status.
    ensures steps.Some? && OnStep(steps.value, index) ==> text == steps.value[index]
    // With a product and no earlier rule matching: "Finalisation", else the old status key.
    ensures steps.Some? && !OnStep(steps.value, index)
            && !(steps.value == [] && newStatus == Termine)
            && !(steps.value == [] && oldStatus == EnAttente && newStatus == EnCours)
            ==> text == if newStatus == Termine then CompletionLabel else StatusKey(oldStatus)
    // Without a product.
    ensures steps.None? ==> text == if newStatus == Termine then NoProductCompletionLabel
                                     else "Changement vers " + Text(newStatus)
  {
    match steps
    case Some(s) =>
      if newStatus == Termine && |s| == 0 then NoStepsLabel
      else if oldStatus == EnAttente && newStatus == EnCours && |s| == 0 then InitiatedLabel
      else if |s| > 0 && index >= 0 && index < |s| then s[index]
      else if newStatus == Termine then CompletionLabel
      else StatusKey(oldStatus)
    case None =>
      if newStatus == Termine then NoProductCompletionLabel
      else
        var l := "Changement vers " + Text(newStatus);
        assert l[0] == 'C';
        l
  }

  /** What `handleNextStep` does, read from the state before the click. */
  predicate CanAdvance(steps: Option<seq<string>>, index: int)
    // A product is joined and, from an index of at least -1, the next step exists.
    ensures CanAdvance(steps, index) ==> steps.Some? && (index >= -1 ==> OnStep(steps.value, index + 1))
    ensures !CanAdvance(steps, index) ==> steps.None? || index >= |steps.value| - 1
  {
    steps.Some? && index < |steps.value| - 1
  }

  /** The row fields one store write sends: `stepIndex` is `None` when the
      write leaves `current_step_index` alone. */
  datatype OrderUpdate = OrderUpdate(stepIndex: Option<int>, status: Status, history: seq<HistoryEntry>)

  /** The page's copy of the order, which the handlers rewrite after each
      successful store update (`setOrder`). */
  class OrderDetailPage {
    var status: Status
    var stepIndex: int
    var history: Option<seq<HistoryEntry>>
    const steps: Option<seq<string>>

    /** The page once `fetchOrderDetails` has loaded the row `stored`. The
        query does not select `history`, so the page holds none, whatever
        the row stores. */
    constructor (stored: Order)
      ensures status == stored.status && stepIndex == stored.stepIndex && history.None?
      ensures steps == MainSteps(stored.product)
    {
      var order := AsSelected(stored);
      status := order.status;
      stepIndex := order.stepIndex;
      history := order.history;
      steps := MainSteps(order.product);
    }

    /** The page as it would be loaded by a query that also selects
        `history`. */
    constructor WithHistory(stored: Order)
      ensures status == stored.status && stepIndex == stored.stepIndex && history == stored.history
      ensures steps == MainSteps(stored.product)
    {
      status := stored.status;
      stepIndex := stored.stepIndex;
      history := stored.history;
      steps := MainSteps(stored.product);
    }

    /** `handleStatusChange(newStatus)`: writes the new status and the history
        with one labelled entry appended; `writeOk` is the store's answer.
        The step index is neither written nor changed. */
    method ChangeStatus(newStatus: Status, now: Timestamp, writeOk: bool) returns (sent: OrderUpdate)
      modifies this
      ensures sent.stepIndex.None? && sent.status == newStatus
      ensures sent.history == AppendHistory(old(history),
                HistoryEntry(StatusChangeLabel(old(status), newStatus, steps, old(stepIndex)), newStatus, now))
      ensures stepIndex == old(stepIndex)
      ensures writeOk ==> status == newStatus && history == Some(sent.history)
      ensures !writeOk ==> status == old(status) && history == old(history)
    {
      var text := StatusChangeLabel(status, newStatus, steps, stepIndex);
      var updatedHistory := AppendHistory(history, HistoryEntry(text, newStatus, now));
      sent := OrderUpdate(None, newStatus, updatedHistory);
      if writeOk {
        status := newStatus;
        history := Some(updatedHistory);
      }
    }

    /** `handleNextStep`: below the last step, moves to the next step (a waiting
        order starts) and logs the step entered; on the last step, or with no
        product or no steps, completes the order through `ChangeStatus`, unless
        it is already complete. */
    method NextStep(now: Timestamp, writeOk: bool) returns (sent: Option<OrderUpdate>)
      requires stepIndex >= -1
      modifies this
      ensures stepIndex >= -1
      ensures CanAdvance(steps, old(stepIndex)) ==>
        var next := old(stepIndex) + 1;
        var st := StatusAfterAdvance(old(status));
        && next < |steps.value|
        && sent == Some(OrderUpdate(Some(next), st,
                          AppendHistory(old(history), HistoryEntry(steps.value[next], st, now))))
        && (writeOk ==> stepIndex == next && status == st && history == Some(sent.value.history))
        && (!writeOk ==> stepIndex == old(stepIndex) && status == old(status) && history == old(history))
      ensures !CanAdvance(steps, old(stepIndex)) ==> stepIndex == old(stepIndex)
      ensures !CanAdvance(steps, old(stepIndex)) && old(status) == Termine ==>
        sent.None? && status == old(status) && history == old(history)
      ensures !CanAdvance(steps, old(stepIndex)) && old(status) != Termine ==>
        var entry := HistoryEntry(StatusChangeLabel(old(status), Termine, steps, old(stepIndex)), Termine, now);
        && sent == Some(OrderUpdate(None, Termine, AppendHistory(old(history), entry)))
        && (writeOk ==> status == Termine && history == Some(sent.value.history))
        && (!writeOk ==> status == old(status) && history == old(history))
    {
      if steps.None? || stepIndex >= |steps.value| - 1 {
        sent := None;
        if status != Termine {
          var update := ChangeStatus(Termine, now, writeOk);
          sent := Some(update);
        }
        return;
      }
      var newStepIndex := stepIndex + 1;
      var newStepName := steps.value[newStepIndex];
      var newStatus := if status == EnAttente then EnCours else status;
      var updatedHistory := AppendHistory(history, HistoryEntry(newStepName, newStatus, now));
      sent := Some(OrderUpdate(Some(newStepIndex), newStatus, updatedHistory));
      if writeOk {
        stepIndex := newStepIndex;
        status := newStatus;
        history := Some(updatedHistory);
      }
    }
  }

  /** The first status change on a freshly loaded page, as written: the page
      holds no history, so the write sends a one-entry history and the row's
      stored entries are overwritten. */
  method FirstChangeAfterLoad(stored: Order, newStatus: Status, now: Timestamp) returns (sent: OrderUpdate)
    ensures |sent.history| == 1
    ensures sent.history[0]
            == HistoryEntry(StatusChangeLabel(stored.status, newStatus, MainSteps(stored.product), stored.stepIndex), newStatus, now)
    // Whenever the row stores an entry, the write does not extend the stored log.
    ensures HistoryOrEmpty(stored.history) != [] ==>
              sent.history != AppendHistory(stored.history, sent.history[0])
  {
    var page := new OrderDetailPage(stored);
    sent := page.ChangeStatus(newStatus, now, true);
  }

  /** The same first change when the load also selects `history`: the write
      sends the stored entries, unchanged and in order, followed by the new
      one. */
  method FirstChangeWithHistory(stored: Order, newStatus: Status, now: Timestamp) returns (sent: OrderUpdate)
    ensures |sent.history| == |HistoryOrEmpty(stored.history)| + 1
    ensures sent.history[..|sent.history| - 1] == HistoryOrEmpty(stored.history)
    ensures sent.history[|sent.history| - 1]
            == HistoryEntry(StatusChangeLabel(stored.status, newStatus, MainSteps(stored.product), stored.stepIndex), newStatus, now)
  {
    var page := new OrderDetailPage.WithHistory(stored);
    sent := page.ChangeStatus(newStatus, now, true);
  }

  const AllDoneMessage := "Toutes les étapes sont terminées"
  const PausedMessage := "Commande en pause"
  const CurrentStepPrefix := "Étape actuelle (principale): "
  const NoStepsMessage := "Étapes de production non définies pour le produit principal."
  const UnknownProgressMessage := "Progression inconnue"

  /** `renderCurrentStepMessage`. */
  function CurrentStepMessage(status: Status, steps: Option<seq<string>>, index: int): (msg: string)
    ensures status == Termine ==> msg == AllDoneMessage
    ensures status == Reporte || status == Annule ==> msg == PausedMessage
    ensures (status == EnAttente || status == EnCours) && steps.Some? && OnStep(steps.value, index)
            ==> msg == CurrentStepPrefix + steps.value[index]
    ensures (status == EnAttente || status == EnCours) && (steps.None? || steps.value == [])
            ==> msg == NoStepsMessage
    // "Progression inconnue" exactly when an active order's index is off its product's steps.
    ensures msg == UnknownProgressMessage
            <==> (status == EnAttente || status == EnCours) && steps.Some? && steps.value != []
                 && !OnStep(steps.value, index)
  {
    if status == Termine then AllDoneMessage
    else if status == Reporte || status == Annule then PausedMessage
    else if steps.Some? && |steps.value| > 0 && index >= 0 && index < |steps.value| then
      var m := CurrentStepPrefix + steps.value[index];
      assert m[0] == CurrentStepPrefix[0];
      m
    else if steps.None? || |steps.value| == 0 then NoStepsMessage
    else
      assert !OnStep(steps.value, index);
      assert status == EnAttente || status == EnCours;
      assert steps.value != [];
      UnknownProgressMessage
  }

  /** The flags that decide which buttons the progress card shows. */
  datatype StepFlags = StepFlags(canChangeStatus: bool, hasSteps: bool, isOnLastStep: bool, canAdvance: bool)

  /** `canChangeOrderStatus`, `hasSteps`, `isOnLastStep`, `canAdvanceToNextStep`. */
  function Flags(status: Status, steps: Option<seq<string>>, index: int): (f: StepFlags)
    ensures f.canChangeStatus <==> status == EnAttente || status == EnCours
    ensures f.hasSteps <==> steps.Some? && steps.value != []
    ensures f.isOnLastStep <==> f.hasSteps && index == |steps.value| - 1
    ensures f.canAdvance <==> f.hasSteps && index < |steps.value| - 1
    // The "complete" and "next step" buttons never show together.
    ensures !(f.isOnLastStep && f.canAdvance)
    // With steps, an index past the last one is the only case with neither button.
    ensures f.hasSteps && !f.isOnLastStep && !f.canAdvance ==> index >= |steps.value|
  {
    var has := steps.Some? && |steps.value| > 0;
    StepFlags(
      status != Termine && status != Annule && status != Reporte,
      has,
      has && index == |steps.value| - 1,
      has && index < |steps.value| - 1)
  }

  /** The "next step" button is shown exactly when `handleNextStep` would
      advance rather than complete. */
  lemma NextStepButtonMatchesHandler(status: Status, steps: Option<seq<string>>, index: int)
    requires index >= -1
    ensures Flags(status, steps, index).canAdvance <==> CanAdvance(steps, index)
  {
  }
}
