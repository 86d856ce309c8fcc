/** frontend/src/pages/reference-tables/ActionRequired.tsx: a page that keeps
    the rows of backend/api/views/action_required.py as the server sends them,
    lists all of them on its one page, and asks window.confirm before each
    delete. The answer to window.confirm and each request's answer are
    parameters. */
module ActionRequiredPage {
  import opened Wrappers
  import opened PyValue
  import opened Forms
  import Listing
  import ReferencePage
  import ActionRequired

  type Row = ReferencePage.Row

  function IdOf(row: Row): int {
    row.id
  }

  /** What handleSave sends, for create and update alike: the action required
      text alone; the code the modal collects is dropped. */
  function Sent(data: Form): Form {
    map["actionRequired" := Field(data, "actionRequired")]
  }

  /** The view's check accepts what the page sends exactly when the text is
      not empty, and then stores that text, and only it. */
  lemma SentIsChecked(data: Form)
    ensures var r := ActionRequired.Checked(Body(Sent(data)));
      (r.Ok? <==> Field(data, "actionRequired") != "") &&
      (r.Err? ==> r.message == ActionRequired.REQUIRED) &&
      (r.Ok? ==> r.value == map["action_required" := Str(Field(data, "actionRequired"))])
  {
    var body := Body(Sent(data));
    assert Get(body, "actionRequired") == Str(Field(data, "actionRequired"));
  }

  /** A code typed in the modal never reaches the server. */
  lemma CodeNeverSent(data: Form)
    ensures "actionRequiredCode" !in Body(Sent(data))
    ensures Body(Sent(data)).Keys == {"actionRequired"}
  {
  }

  class Page {
    var items: seq<Row>
    var currentPage: int
    const totalPages: int
    var selectedItems: seq<int>
    var isModalOpen: bool
    var editingItem: Option<Row>
    var error: Option<string>

    constructor()
      ensures items == [] && currentPage == 1 && totalPages == 1 && selectedItems == []
      ensures !isModalOpen && editingItem == None && error == None
    {
      items := [];
      currentPage := 1;
      totalPages := 1;
      selectedItems := [];
      isModalOpen := false;
      editingItem := None;
      error := None;
    }

    /** The select-all box's checked state. */
    function HeaderChecked(): bool
      reads this
    {
      Listing.HeaderChecked(selectedItems, |items|)
    }

    /** fetchItems: the rows of a successful reply, as given; otherwise the
        items stay and the error shows. */
    method Fetched(reply: ReferencePage.Reply<seq<Row>>)
      modifies this
      ensures reply.success && reply.data.Some? ==> items == reply.data.value && error == None
      ensures !(reply.success && reply.data.Some?) ==>
        items == old(items) && error == Some(Listing.ErrorOr(reply.error, ReferencePage.FETCH_FAILED))
      ensures currentPage == old(currentPage) && selectedItems == old(selectedItems)
      ensures isModalOpen == old(isModalOpen) && editingItem == old(editingItem)
    {
      error := None;
      if reply.success && reply.data.Some? {
        items := reply.data.value;
      } else {
        error := Some(Listing.ErrorOr(reply.error, ReferencePage.FETCH_FAILED));
      }
    }

    /** handlePageChange: only a page in [1, totalPages] is taken. */
    method HandlePageChange(page: int)
      modifies this
      ensures currentPage == if 1 <= page <= totalPages then page else old(currentPage)
      ensures items == old(items) && selectedItems == old(selectedItems)
      ensures isModalOpen == old(isModalOpen) && editingItem == old(editingItem) && error == old(error)
    {
      if page >= 1 && page <= totalPages {
        currentPage := page;
      }
    }

    /** handleSelectAll: every item's id, the page being all of them. */
    method SelectAll(checked: bool)
      modifies this
      ensures selectedItems == if checked then Listing.Ids(items, IdOf) else []
      ensures checked ==> (HeaderChecked() <==> |items| > 0)
      ensures items == old(items) && currentPage == old(currentPage) && isModalOpen == old(isModalOpen)
      ensures editingItem == old(editingItem) && error == old(error)
    {
      if checked {
        selectedItems := Listing.Ids(items, IdOf);
        Listing.SelectAllTicksHeader(items, IdOf);
      } else {
        selectedItems := [];
      }
    }

    /** handleSelectItem: the row's box toggles its id. */
    method SelectItem(id: int)
      modifies this
      ensures selectedItems == Listing.Toggle(old(selectedItems), id)
      ensures Listing.Distinct(old(selectedItems)) ==> Listing.Distinct(selectedItems)
      ensures items == old(items) && currentPage == old(currentPage) && isModalOpen == old(isModalOpen)
      ensures editingItem == old(editingItem) && error == old(error)
    {
      if Listing.Distinct(selectedItems) {
        Listing.ToggleKeepsDistinct(selectedItems, id);
      }
      selectedItems := Listing.Toggle(selectedItems, id);
    }

    /** handleDeleteSelected, with the answer to window.confirm and then the
        server's: nothing happens with nothing selected or when refused; on
        success the selected rows go and the selection empties; on failure
        both stay and the error shows. */
    method DeleteSelected(confirmed: bool, success: bool, err: Option<string>)
      modifies this
      ensures old(selectedItems) == [] || !confirmed ==>
        items == old(items) && selectedItems == old(selectedItems) && error == old(error)
      ensures old(selectedItems) != [] && confirmed && success ==>
        items == Listing.RemoveIds(old(items), IdOf, old(selectedItems)) && selectedItems == [] && error == None
      ensures old(selectedItems) != [] && confirmed && !success ==>
        items == old(items) && selectedItems == old(selectedItems) &&
        error == Some(Listing.ErrorOr(err, ReferencePage.BULK_FAILED))
      ensures currentPage == old(currentPage) && isModalOpen == old(isModalOpen)
      ensures editingItem == old(editingItem)
    {
      if |selectedItems| == 0 {
        return;
      }
      if confirmed {
        error := None;
        if success {
          items := Listing.RemoveIds(items, IdOf, selectedItems);
          selectedItems := [];
        } else {
          error := Some(Listing.ErrorOr(err, ReferencePage.BULK_FAILED));
        }
      }
    }

    /** handleAdd */
    method Add()
      modifies this
      ensures editingItem == None && isModalOpen
      ensures items == old(items) && currentPage == old(currentPage)
      ensures selectedItems == old(selectedItems) && error == old(error)
    {
      editingItem := None;
      isModalOpen := true;
    }

    /** handleEdit: the modal opens on the row as it is. */
    method Edit(item: Row)
      modifies this
      ensures editingItem == Some(item) && isModalOpen
      ensures items == old(items) && currentPage == old(currentPage)
      ensures selectedItems == old(selectedItems) && error == old(error)
    {
      editingItem := Some(item);
      isModalOpen := true;
    }

    /** handleSave: sends Sent(data), then, with the server's answer, puts the
        returned row in place of the edited one, or after the others when
        adding; a failure leaves the items and the modal as they were. */
    method Save(data: Form, reply: ReferencePage.Reply<Row>) returns (sent: Form)
      modifies this
      ensures sent == Sent(data)
      ensures reply.success && reply.data.Some? ==>
        items == (if old(editingItem).Some?
          then Listing.ReplaceById(old(items), IdOf, old(editingItem).value.id, reply.data.value)
          else old(items) + [reply.data.value]) &&
        !isModalOpen && editingItem == None && error == None
      ensures !(reply.success && reply.data.Some?) ==>
        items == old(items) && isModalOpen == old(isModalOpen) && editingItem == old(editingItem) &&
        error == Some(Listing.ErrorOr(reply.error,
          if old(editingItem).Some? then ReferencePage.UPDATE_FAILED else ReferencePage.CREATE_FAILED))
      ensures currentPage == old(currentPage) && selectedItems == old(selectedItems)
    {
      sent := Sent(data);
      error := None;
      if reply.success && reply.data.Some? {
        if editingItem.Some? {
          items := Listing.ReplaceById(items, IdOf, editingItem.value.id, reply.data.value);
        } else {
          items := items + [reply.data.value];
        }
        isModalOpen := false;
        editingItem := None;
      } else {
        error := Some(Listing.ErrorOr(reply.error,
          if editingItem.Some? then ReferencePage.UPDATE_FAILED else ReferencePage.CREATE_FAILED));
      }
    }

    /** handleDelete, with the answer to window.confirm and then the
        server's: when confirmed, the row goes on success and the error shows
        on failure. The id 0 is deleted like any other. */
    method Delete(id: int, confirmed: bool, success: bool, err: Option<string>)
      modifies this
      ensures !confirmed ==> items == old(items) && error == old(error)
      ensures confirmed && success ==> items == Listing.RemoveId(old(items), IdOf, id) && error == None
      ensures confirmed && !success ==>
        items == old(items) && error == Some(Listing.ErrorOr(err, ReferencePage.DELETE_FAILED))
      ensures currentPage == old(currentPage) && selectedItems == old(selectedItems)
      ensures isModalOpen == old(isModalOpen) && editingItem == old(editingItem)
    {
      if confirmed {
        error := None;
        if success {
          items := Listing.RemoveId(items, IdOf, id);
        } else {
          error := Some(Listing.ErrorOr(err, ReferencePage.DELETE_FAILED));
        }
      }
    }

    /** The modal's onClose. */
    method CloseModal()
      modifies this
      ensures !isModalOpen && editingItem == None
      ensures items == old(items) && currentPage == old(currentPage)
      ensures selectedItems == old(selectedItems) && error == old(error)
    {
      isModalOpen := false;
      editingItem := None;
    }
  }
}
