/** The product form (`src/components/ProductForm.tsx`): the process-step
    selection being edited (toggle, remove, move), and the validation and
    payload of its submission, which always ends the steps with the final
    packing step. */
module ProductForm {
  import opened Wrappers
  import opened MockData
  import Seqs
  import Text

  const FinalStep := "Emballage"
  const AvailableSteps: seq<string> := ["Conception", "Impression", "Plastification", "Pelliculage", "Découpe"]

  /** The steps other than `step`, in their order: every other step keeps
      its number of occurrences. */
  function Without(steps: seq<string>, step: string): (r: seq<string>)
    ensures forall s :: s in r <==> s in steps && s != step
    ensures forall s :: multiset(r)[s] == if s == step then 0 else multiset(steps)[s]
    ensures step !in steps ==> r == steps
  {
    var keep := (s: string) => s != step;
    Seqs.FilterMultiplicity(steps, keep);
    if step in steps then Seqs.Filter(steps, keep)
    else
      Seqs.FilterKeepsAll(steps, keep);
      Seqs.Filter(steps, keep)
  }

  /** Removing a step never reorders the others: it distributes over
      concatenation. */
  lemma {:induction false} WithoutConcat(a: seq<string>, b: seq<string>, step: string)
    ensures Without(a + b, step) == Without(a, step) + Without(b, step)
  {
    Seqs.FilterConcat(a, b, (s: string) => s != step);
  }

  /** The selection the form starts from: the product's steps without the
      final step, which the form adds back on submission. */
  function InitialSteps(product: Option<Product>): (steps: seq<string>)
    ensures FinalStep !in steps
    ensures product.None? ==> steps == []
    ensures product.Some? ==> forall s :: s in steps <==> s in product.value.steps && s != FinalStep
    ensures product.Some? ==>
              forall s :: multiset(steps)[s] == if s == FinalStep then 0 else multiset(product.value.steps)[s]
    ensures product.Some? && FinalStep !in product.value.steps ==> steps == product.value.steps
  {
    match product
    case None => []
    case Some(p) => Without(p.steps, FinalStep)
  }

  /** The kept steps stay in the product's order: the initial selection of
      a product whose steps are `a + b` is that of `a`, then that of `b`. */
  lemma {:induction false} InitialStepsKeepOrder(p: Product, a: seq<string>, b: seq<string>)
    requires p.steps == a + b
    ensures InitialSteps(Some(p)) == InitialSteps(Some(p.(steps := a))) + InitialSteps(Some(p.(steps := b)))
  {
    WithoutConcat(a, b, FinalStep);
  }

  /** `handleStepToggle`: a selected step is removed wherever it occurs; any
      other step is appended at the end. */
  function Toggle(steps: seq<string>, step: string): (r: seq<string>)
    ensures step in steps ==> step !in r && forall s :: s in r <==> s in steps && s != step
    ensures step in steps ==> forall s :: multiset(r)[s] == if s == step then 0 else multiset(steps)[s]
    ensures step !in steps ==> r == steps + [step]
  {
    if step in steps then Without(steps, step) else steps + [step]
  }

  /** Deselecting a step keeps the other steps in their order. */
  lemma {:induction false} ToggleOffKeepsOrder(a: seq<string>, b: seq<string>, step: string)
    requires step in a + b
    ensures Toggle(a + b, step) == Without(a, step) + Without(b, step)
  {
    WithoutConcat(a, b, step);
  }

  /** Toggling an unselected step twice restores the selection. */
  lemma {:induction false} ToggleTwice(steps: seq<string>, step: string)
    requires step !in steps
    ensures Toggle(Toggle(steps, step), step) == steps
  {
    WithoutConcat(steps, [step], step);
    assert Without([step], step) == [];
  }

  /** `handleRemoveStep`: keep every step whose position is not `index`. */
  function RemoveAt(steps: seq<string>, index: int): (r: seq<string>)
    ensures !(0 <= index < |steps|) ==> r == steps
    ensures 0 <= index < |steps| ==>
              && |r| == |steps| - 1
              && (forall i :: 0 <= i < index ==> r[i] == steps[i])
              && (forall i :: index <= i < |r| ==> r[i] == steps[i + 1])
              && multiset(r) == multiset(steps) - multiset{steps[index]}
    decreases |steps|
  {
    if steps == [] then []
    else if index == 0 then steps[1..]
    else
      assert steps == [steps[0]] + steps[1..];
      [steps[0]] + RemoveAt(steps[1..], index - 1)
  }

  /** The selection after `handleMoveStep(index, up or down)`: unchanged at
      the edge it would leave, otherwise the step and its neighbour swap. */
  function Moved(steps: seq<string>, index: nat, up: bool): (r: seq<string>)
    requires index < |steps|
    ensures |r| == |steps| && multiset(r) == multiset(steps)
    ensures (up && index == 0) || (!up && index == |steps| - 1) ==> r == steps
    ensures !((up && index == 0) || (!up && index == |steps| - 1)) ==>
              var j := if up then index - 1 else index + 1;
              r[index] == steps[j] && r[j] == steps[index]
              && forall k :: 0 <= k < |r| && k != index && k != j ==> r[k] == steps[k]
  {
    if (up && index == 0) || (!up && index == |steps| - 1) then steps
    else
      var j := if up then index - 1 else index + 1;
      steps[index := steps[j]][j := steps[index]]
  }

  /** Moving a step up and then moving it back down restores the selection. */
  lemma MoveUpThenDown(steps: seq<string>, index: nat)
    requires 0 < index < |steps|
    ensures Moved(Moved(steps, index, true), index - 1, false) == steps
  {
    var r := Moved(Moved(steps, index, true), index - 1, false);
    assert forall k :: 0 <= k < |steps| ==> r[k] == steps[k];
  }

  datatype FormError = NameRequired | NoStepSelected

  /** Whether the submission updates the product it was opened with or
      inserts a new one. */
  datatype Target = Update(id: string) | Insert

  /** The row `handleSubmit` writes. */
  datatype ProductWrite = ProductWrite(target: Target, name: string, steps: seq<string>, description: Option<string>)

  datatype Field = Name | Description

  /** The form's state. `productId` is `Some` when the form edits an existing product. */
  class ProductFormState {
    var name: string
    var description: string
    var steps: seq<string>
    var productId: Option<string>

    /** The form opened on `product`, or empty. */
    constructor (product: Option<Product>)
      ensures name == (if product.Some? then product.value.name else "")
      ensures description == (if product.Some? then product.value.description.GetOr("") else "")
      ensures steps == InitialSteps(product)
      ensures productId == (if product.Some? then Some(product.value.id) else None)
    {
      name := if product.Some? then product.value.name else "";
      description := if product.Some? then product.value.description.GetOr("") else "";
      steps := InitialSteps(product);
      productId := if product.Some? then Some(product.value.id) else None;
    }

    /** The effect run when the `product` prop changes: the form starts over
        from it. The submission target follows the prop. */
    method ProductChanged(product: Option<Product>)
      modifies this
      ensures name == (if product.Some? then product.value.name else "")
      ensures description == (if product.Some? then product.value.description.GetOr("") else "")
      ensures steps == InitialSteps(product)
      ensures productId == (if product.Some? then Some(product.value.id) else None)
    {
      name := if product.Some? then product.value.name else "";
      description := if product.Some? then product.value.description.GetOr("") else "";
      steps := InitialSteps(product);
      productId := if product.Some? then Some(product.value.id) else None;
    }

    /** `handleChange` on the name or description input. */
    method Change(field: Field, value: string)
      modifies this
      ensures field == Name ==> name == value && description == old(description)
      ensures field == Description ==> description == value && name == old(name)
      ensures steps == old(steps) && productId == old(productId)
    {
      match field
      case Name => name := value;
      case Description => description := value;
    }

    /** `handleStepToggle`. */
    method ToggleStep(step: string)
      modifies this
      ensures steps == Toggle(old(steps), step)
      ensures name == old(name) && description == old(description) && productId == old(productId)
    {
      steps := Toggle(steps, step);
    }

    /** `handleRemoveStep`. */
    method RemoveStep(index: int)
      modifies this
      ensures steps == RemoveAt(old(steps), index)
      ensures name == old(name) && description == old(description) && productId == old(productId)
    {
      steps := RemoveAt(steps, index);
    }

    /** `handleMoveStep`: swaps inside a copy of the selection, then adopts
        the copy. `index` is the position of a listed step. */
    method MoveStep(index: nat, up: bool)
      requires index < |steps|
      modifies this
      ensures steps == Moved(old(steps), index, up)
      ensures name == old(name) && description == old(description) && productId == old(productId)
    {
      if (up && index == 0) || (!up && index == |steps| - 1) {
        return;
      }
      var current := steps;
      var newSteps := new string[|current|](i requires 0 <= i < |current| => current[i]);
      var newIndex := if up then index - 1 else index + 1;
      newSteps[index], newSteps[newIndex] := newSteps[newIndex], newSteps[index];
      steps := newSteps[..];
    }

    /** `handleSubmit`: refuses a blank name, then an empty selection;
        otherwise writes the name as typed, the selection followed by the
        final step unless already selected, and no description for a blank
        one. */
    method Submit() returns (r: Result<ProductWrite, FormError>)
      ensures Text.IsBlank(name) ==> r == Failure(NameRequired)
      ensures !Text.IsBlank(name) && steps == [] ==> r == Failure(NoStepSelected)
      ensures !Text.IsBlank(name) && steps != [] ==>
                && r.Success?
                && r.value.name == name
                && r.value.target == (if productId.Some? && productId.value != "" then Update(productId.value) else Insert)
                && r.value.description == (if Text.IsBlank(description) then None else Some(description))
                && r.value.steps == (if FinalStep in steps then steps else steps + [FinalStep])
                && r.value.steps[..|steps|] == steps
                && FinalStep in r.value.steps
    {
      if Text.IsBlank(name) {
        return Failure(NameRequired);
      }
      if |steps| == 0 {
        return Failure(NoStepSelected);
      }
      var stepsForSubmission := steps;
      if FinalStep !in stepsForSubmission {
        stepsForSubmission := stepsForSubmission + [FinalStep];
      }
      assert stepsForSubmission[..|steps|] == steps;
      var target := if productId.Some? && productId.value != "" then Update(productId.value) else Insert;
      r := Success(ProductWrite(target, name, stepsForSubmission,
                                if Text.IsBlank(description) then None else Some(description)));
    }
  }
}
