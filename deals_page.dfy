/**
  The deals page: which view is shown (grid, detail or form), the selected
  deal, the form's mode, and the refresh counter the grid reloads on. The
  deal service answers plain values (`null`/`false` on failure) and never
  throws to the page; its answers and the confirmation are parameters.
 */
module DealsPage {
  import opened Wrappers
  import opened Js
  import opened Sdk

  datatype View = Grid | Detail | Form

  const CreateMode := "create"
  const EditMode := "edit"

  /** The write `handleFormSubmit` issues by form mode: `create`, or
      `update(selectedDeal.Id)`, which throws a TypeError when no deal is
      selected. */
  function SubmitCall(formMode: string, selected: JsValue, formData: Record): (r: Result<ServiceCall, Exception>)
    ensures formMode == CreateMode ==> r == Success(CreateCall(formData))
    ensures formMode != CreateMode && Nullish(selected) ==> r == Failure(TypeErrorThrown)
    ensures formMode != CreateMode && !Nullish(selected) ==> r == Success(UpdateCall(IdOf(selected), formData))
  {
    if formMode == CreateMode then Success(CreateCall(formData))
    else if Nullish(selected) then Failure(TypeErrorThrown)
    else Success(UpdateCall(IdOf(selected), formData))
  }

  class DealsPage {
    var view: View
    var selectedDeal: JsValue
    var formMode: string
    var refreshTrigger: nat

    /** The mode is one of the two the page sets, and the form in create mode
        has no deal selected. */
    predicate Valid()
      reads this
    {
      && (formMode == CreateMode || formMode == EditMode)
      && (view == Form && formMode == CreateMode ==> selectedDeal == Null)
    }

    constructor ()
      ensures view == Grid && selectedDeal == Null && formMode == CreateMode && refreshTrigger == 0
      ensures Valid()
    {
      view := Grid;
      selectedDeal := Null;
      formMode := CreateMode;
      refreshTrigger := 0;
    }

    method HandleCreate()
      modifies this
      ensures view == Form && selectedDeal == Null && formMode == CreateMode
      ensures refreshTrigger == old(refreshTrigger)
      ensures Valid()
    {
      selectedDeal := Null;
      formMode := CreateMode;
      view := Form;
    }

    method HandleEdit(deal: JsValue)
      modifies this
      ensures view == Form && selectedDeal == deal && formMode == EditMode
      ensures refreshTrigger == old(refreshTrigger)
      ensures Valid()
    {
      selectedDeal := deal;
      formMode := EditMode;
      view := Form;
    }

    method HandleView(deal: JsValue)
      requires Valid()
      modifies this
      ensures view == Detail && selectedDeal == deal
      ensures formMode == old(formMode) && refreshTrigger == old(refreshTrigger)
      ensures Valid()
    {
      selectedDeal := deal;
      view := Detail;
    }

    /** `handleDeleteDeal`: no call without confirmation; a delete answering
        true returns to the grid, clears the selection and bumps the counter
        by one; a false answer changes nothing. */
    method HandleDelete(deal: JsValue, confirmed: bool, deleted: bool) returns (call: Option<ServiceCall>)
      requires Valid()
      modifies this
      ensures call == (if confirmed then Some(DeleteCall(IdOf(deal))) else None)
      ensures confirmed && deleted ==>
                view == Grid && selectedDeal == Null && refreshTrigger == old(refreshTrigger) + 1
      ensures !(confirmed && deleted) ==> unchanged(this)
      ensures formMode == old(formMode)
      ensures Valid()
    {
      call := None;
      if !confirmed {
        return;
      }
      call := Some(DeleteCall(IdOf(deal)));
      if deleted {
        view := Grid;
        selectedDeal := Null;
        refreshTrigger := refreshTrigger + 1;
      }
    }

    /** `handleFormSubmit`: the write goes to `create` or `update` by mode; a
        truthy answer returns to the grid, clears the selection and bumps the
        counter by one; a falsy one changes nothing. */
    method HandleFormSubmit(formData: Record, written: JsValue) returns (call: Result<ServiceCall, Exception>)
      requires Valid()
      modifies this
      ensures call == SubmitCall(old(formMode), old(selectedDeal), formData)
      ensures old(view) == Form && old(formMode) == CreateMode ==> call == Success(CreateCall(formData))
      ensures call.Success? && Truthy(written) ==>
                view == Grid && selectedDeal == Null && refreshTrigger == old(refreshTrigger) + 1
      ensures !(call.Success? && Truthy(written)) ==> unchanged(this)
      ensures formMode == old(formMode)
      ensures Valid()
    {
      if formMode == CreateMode {
        call := Success(CreateCall(formData));
      } else if Nullish(selectedDeal) {
        return Failure(TypeErrorThrown);
      } else {
        call := Success(UpdateCall(IdOf(selectedDeal), formData));
      }
      if Truthy(written) {
        view := Grid;
        selectedDeal := Null;
        refreshTrigger := refreshTrigger + 1;
      }
    }

    method HandleFormCancel()
      requires Valid()
      modifies this
      ensures view == Grid && selectedDeal == Null
      ensures formMode == old(formMode) && refreshTrigger == old(refreshTrigger)
      ensures Valid()
    {
      view := Grid;
      selectedDeal := Null;
    }

    method HandleBackToList()
      requires Valid()
      modifies this
      ensures view == Grid && selectedDeal == Null
      ensures formMode == old(formMode) && refreshTrigger == old(refreshTrigger)
      ensures Valid()
    {
      view := Grid;
      selectedDeal := Null;
    }
  }
}
