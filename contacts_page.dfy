/**
  The contacts page: which view is shown (list, create form, edit form or
  detail), the selected contact, and the busy flag during a submit. The
  service's answers and the user's confirmation are parameters; the service
  call a handler issues is returned, with the toast it shows.
 */
module ContactsPage {
  import opened Wrappers
  import opened Js
  import opened Sdk

  datatype View = List | Create | Edit | Detail

  /** The write `handleFormSubmit` issues: an update of the selected
      contact's `Id` when one is selected, else a create. */
  function SubmitCall(selected: JsValue, formData: Record): (r: ServiceCall)
    ensures r.CreateCall? || r.UpdateCall?
    ensures r.data == formData
    ensures r.UpdateCall? <==> Truthy(selected)
    ensures r.UpdateCall? && selected.Obj? ==> r.id == Get(selected.fields, "Id")
  {
    if Truthy(selected) then UpdateCall(IdOf(selected), formData) else CreateCall(formData)
  }

  /** The toast after a submit, by kind of write and outcome. */
  function SubmitToast(call: ServiceCall, succeeded: bool): (r: string)
    requires call.CreateCall? || call.UpdateCall?
    ensures succeeded && call.CreateCall? ==> r == "Contact created successfully!"
    ensures succeeded && call.UpdateCall? ==> r == "Contact updated successfully!"
    ensures !succeeded && call.CreateCall? ==> r == "Failed to create contact"
    ensures !succeeded && call.UpdateCall? ==> r == "Failed to update contact"
  {
    match (succeeded, call.CreateCall?)
    case (true, true) => "Contact created successfully!"
    case (true, false) => "Contact updated successfully!"
    case (false, true) => "Failed to create contact"
    case (false, false) => "Failed to update contact"
  }

  class ContactsPage {
    var currentView: View
    var selectedContact: JsValue
    var isLoading: bool

    /** The create form is shown only with no contact selected. */
    predicate Valid()
      reads this
    {
      currentView == Create ==> selectedContact == Null
    }

    constructor ()
      ensures currentView == List && selectedContact == Null && !isLoading
      ensures Valid()
    {
      currentView := List;
      selectedContact := Null;
      isLoading := false;
    }

    method HandleCreate()
      modifies this
      ensures currentView == Create && selectedContact == Null && isLoading == old(isLoading)
      ensures Valid()
    {
      selectedContact := Null;
      currentView := Create;
    }

    method HandleEdit(contact: JsValue)
      modifies this
      ensures currentView == Edit && selectedContact == contact && isLoading == old(isLoading)
      ensures Valid()
    {
      selectedContact := contact;
      currentView := Edit;
    }

    method HandleView(contact: JsValue)
      modifies this
      ensures currentView == Detail && selectedContact == contact && isLoading == old(isLoading)
      ensures Valid()
    {
      selectedContact := contact;
      currentView := Detail;
    }

    /** `handleDeleteContact`: no call without confirmation; after a delete
        that succeeds the list is shown (the selection is kept), after one
        that throws nothing changes but the toast. */
    method HandleDelete(contact: JsValue, confirmed: bool, deleted: Result<bool, Exception>)
      returns (call: Option<ServiceCall>, toast: Option<string>)
      requires Valid()
      modifies this
      ensures call == (if confirmed then Some(DeleteCall(IdOf(contact))) else None)
      ensures confirmed && deleted.Success? ==> currentView == List && toast == Some("Contact deleted successfully!")
      ensures !(confirmed && deleted.Success?) ==> currentView == old(currentView)
      ensures confirmed && deleted.Failure? ==> toast == Some("Failed to delete contact")
      ensures !confirmed ==> toast == None
      ensures selectedContact == old(selectedContact) && isLoading == old(isLoading)
      ensures Valid()
    {
      call, toast := None, None;
      if confirmed {
        call := Some(DeleteCall(IdOf(contact)));
        if deleted.Success? {
          currentView := List;
          toast := Some("Contact deleted successfully!");
        } else {
          toast := Some("Failed to delete contact");
        }
      }
    }

    /** `handleFormSubmit`: the write goes to `update` or `create` by whether
        a contact is selected; success shows the list, failure leaves the
        view; `isLoading` is false afterwards either way. */
    method HandleFormSubmit(formData: Record, written: Result<Record, Exception>)
      returns (call: ServiceCall, toast: string)
      requires Valid()
      modifies this
      ensures call == SubmitCall(old(selectedContact), formData)
      ensures old(currentView) == Create ==> call == CreateCall(formData)
      ensures toast == SubmitToast(call, written.Success?)
      ensures written.Success? ==> currentView == List
      ensures written.Failure? ==> currentView == old(currentView)
      ensures selectedContact == old(selectedContact) && !isLoading
      ensures Valid()
    {
      isLoading := true;
      if Truthy(selectedContact) {
        call := UpdateCall(IdOf(selectedContact), formData);
      } else {
        call := CreateCall(formData);
      }
      toast := SubmitToast(call, written.Success?);
      if written.Success? {
        currentView := List;
      }
      isLoading := false;
    }

    method HandleFormCancel()
      modifies this
      ensures currentView == List && selectedContact == Null && isLoading == old(isLoading)
      ensures Valid()
    {
      currentView := List;
      selectedContact := Null;
    }

    method HandleBackToList()
      modifies this
      ensures currentView == List && selectedContact == Null && isLoading == old(isLoading)
      ensures Valid()
    {
      currentView := List;
      selectedContact := Null;
    }
  }
}
