/** What the Region and ActionTaken reference-table pages share
    (frontend/src/pages/reference-tables/Region.tsx and ActionTaken.tsx): the
    item list fed to the pagination hook at twenty items a page, the check box
    selection, the delete confirmation with its stored id, and the save that
    replaces or appends what the server returns. Each request's answer is a
    parameter; exceptions thrown by the request are not modelled. */
module ReferencePage {
  import opened Wrappers
  import opened Text
  import opened PyValue
  import Paging
  import Listing

  /** The resolved value of an apiService call: success, data, error. */
  datatype Reply<T> = Reply(success: bool, data: Option<T>, error: Option<string>)

  /** A row as a view returns it: its integer id and its other columns. */
  datatype Row = Row(id: int, columns: Dict)

  /** `row.key || ''` for a text column: its text, '' when it is null or
      absent. */
  function TextColumn(columns: Dict, key: string): (r: string)
    ensures key in columns && columns[key].Str? ==> r == columns[key].s
    ensures !(key in columns && columns[key].Str?) ==> r == ""
  {
    if key in columns && columns[key].Str? then columns[key].s else ""
  }

  /** `String(id).padStart(5, '0')`: the id as the table shows it. */
  function PaddedId(id: int): (r: string)
    ensures |r| >= 5
  {
    PadStart(IntToString(id), 5, '0')
  }

  /** A non-negative id's padded form holds only digits. */
  lemma PaddedIdDigits(id: int)
    requires id >= 0
    ensures AllDigits(PaddedId(id))
  {
    var s := IntToString(id);
    var r := PaddedId(id);
    forall i | 0 <= i < |r|
      ensures IsDigit(r[i])
    {
      if i >= |r| - |s| {
        assert r[i] == r[|r| - |s|..][i - (|r| - |s|)];
      }
    }
  }

  /** Typing a non-negative id as the table shows it finds it: the query
      lowercases to itself and occurs in the padded id. */
  lemma PaddedIdFound(id: int)
    requires id >= 0
    ensures Includes(PaddedId(id), Lower(PaddedId(id)))
  {
    PaddedIdDigits(id);
    LowerKeepsUncapitalised(PaddedId(id));
    IncludesItself(PaddedId(id));
  }

  const PER_PAGE := 20

  const FETCH_FAILED := "Failed to fetch items"
  const BULK_FAILED := "Failed to delete items"
  const UPDATE_FAILED := "Failed to update item"
  const CREATE_FAILED := "Failed to create item"
  const DELETE_FAILED := "Failed to delete item"

  datatype DeleteKind = Single | Bulk

  /** Whether confirmSingleDelete goes ahead: `!deleteId` stops it for no id
      and also for the id 0. */
  predicate Deletable(deleteId: Option<int>) {
    deleteId.Some? && deleteId.value != 0
  }

  lemma IdZeroNeverDeleted()
    ensures !Deletable(Some(0)) && !Deletable(None)
    ensures forall id :: id != 0 ==> Deletable(Some(id))
  {
  }

  class Page<T(==)> {
    var items: seq<T>
    var selectedItems: seq<int>
    var searchQuery: string
    var isModalOpen: bool
    var editingItem: Option<T>
    var isDeleteModalOpen: bool
    var deleteType: DeleteKind
    var deleteId: Option<int>
    var deleteItemName: string
    var error: Option<string>
    const idOf: T -> int
    const nameOf: T -> string
    const pager: Paging.Pager<T>

    /** The hook sees the page's items and query, twenty to a page. */
    ghost predicate Valid()
      reads this, pager
    {
      pager.Valid() && pager.items == items && pager.query == searchQuery && pager.per == PER_PAGE
    }

    constructor(idOf: T -> int, nameOf: T -> string, searchFilter: (T, string) -> bool, stringify: T -> string)
      ensures Valid() && fresh(pager)
      ensures items == [] && selectedItems == [] && searchQuery == "" && error == None
      ensures !isModalOpen && editingItem == None && !isDeleteModalOpen && deleteType == Single
      ensures deleteId == None && deleteItemName == ""
      ensures this.idOf == idOf && this.nameOf == nameOf && pager.filter == Some(searchFilter)
    {
      items := [];
      selectedItems := [];
      searchQuery := "";
      isModalOpen := false;
      editingItem := None;
      isDeleteModalOpen := false;
      deleteType := Single;
      deleteId := None;
      deleteItemName := "";
      error := None;
      this.idOf := idOf;
      this.nameOf := nameOf;
      pager := new Paging.Pager([], PER_PAGE, "", Some(searchFilter), stringify);
    }

    /** The rows the table shows. */
    function PaginatedItems(): seq<T>
      reads this, pager
      requires Valid()
    {
      pager.PaginatedItems()
    }

    /** fetchItems, with the mapped rows of a successful reply: they become
        the items; otherwise the items stay and the error shows. */
    method Fetched(reply: Reply<seq<T>>)
      requires Valid()
      modifies this, pager
      ensures Valid()
      ensures reply.success && reply.data.Some? ==> items == reply.data.value && error == None
      ensures !(reply.success && reply.data.Some?) ==>
        items == old(items) && error == Some(Listing.ErrorOr(reply.error, FETCH_FAILED))
      ensures selectedItems == old(selectedItems) && searchQuery == old(searchQuery)
      ensures isModalOpen == old(isModalOpen) && editingItem == old(editingItem)
      ensures isDeleteModalOpen == old(isDeleteModalOpen) && deleteType == old(deleteType)
      ensures deleteId == old(deleteId) && deleteItemName == old(deleteItemName)
      ensures reply.success && reply.data.Some? ==>
        pager.currentPage == if old(pager.currentPage) > pager.Total() && pager.Total() > 0 then pager.Total() else old(pager.currentPage)
      ensures !(reply.success && reply.data.Some?) ==> pager.currentPage == old(pager.currentPage)
    {
      error := None;
      if reply.success && reply.data.Some? {
        items := reply.data.value;
        pager.SetItems(items);
      } else {
        error := Some(Listing.ErrorOr(reply.error, FETCH_FAILED));
      }
    }

    /** The search box: the query becomes the typed text, and the hook goes
        back to page 1 when that text differs from the query before. */
    method Search(q: string)
      requires Valid()
      modifies this, pager
      ensures Valid()
      ensures searchQuery == q
      ensures pager.currentPage == if q != old(searchQuery) then 1 else old(pager.currentPage)
      ensures items == old(items) && selectedItems == old(selectedItems)
      ensures isModalOpen == old(isModalOpen) && editingItem == old(editingItem)
      ensures isDeleteModalOpen == old(isDeleteModalOpen) && deleteType == old(deleteType)
      ensures deleteId == old(deleteId) && deleteItemName == old(deleteItemName) && error == old(error)
    {
      searchQuery := q;
      pager.SetQuery(q);
    }

    /** handlePageChange: the hook's setCurrentPage. */
    method HandlePageChange(page: int)
      requires Valid()
      modifies pager
      ensures Valid()
      ensures pager.currentPage == if 1 <= page <= pager.Total() then page else old(pager.currentPage)
    {
      pager.HandlePageChange(page);
    }

    /** handleSelectAll: the ids of the page shown, not of every item. */
    method SelectAll(checked: bool)
      requires Valid()
      modifies this
      ensures Valid()
      ensures selectedItems == if checked then Listing.Ids(PaginatedItems(), idOf) else []
      ensures items == old(items) && searchQuery == old(searchQuery) && isModalOpen == old(isModalOpen)
      ensures editingItem == old(editingItem) && isDeleteModalOpen == old(isDeleteModalOpen)
      ensures deleteType == old(deleteType) && deleteId == old(deleteId)
      ensures deleteItemName == old(deleteItemName) && error == old(error)
    {
      if checked {
        selectedItems := Listing.Ids(pager.PaginatedItems(), idOf);
      } else {
        selectedItems := [];
      }
    }

    /** handleSelectItem */
    method SelectItem(id: int)
      requires Valid()
      modifies this
      ensures Valid()
      ensures selectedItems == Listing.Toggle(old(selectedItems), id)
      ensures items == old(items) && searchQuery == old(searchQuery) && isModalOpen == old(isModalOpen)
      ensures editingItem == old(editingItem) && isDeleteModalOpen == old(isDeleteModalOpen)
      ensures deleteType == old(deleteType) && deleteId == old(deleteId)
      ensures deleteItemName == old(deleteItemName) && error == old(error)
    {
      selectedItems := Listing.Toggle(selectedItems, id);
    }

    /** handleDeleteSelected: with a selection, the bulk confirmation opens. */
    method DeleteSelected()
      modifies this
      ensures old(selectedItems) == [] ==>
        deleteType == old(deleteType) && isDeleteModalOpen == old(isDeleteModalOpen)
      ensures old(selectedItems) != [] ==> deleteType == Bulk && isDeleteModalOpen
      ensures items == old(items) && selectedItems == old(selectedItems)
      ensures searchQuery == old(searchQuery) && isModalOpen == old(isModalOpen)
      ensures editingItem == old(editingItem) && deleteId == old(deleteId)
      ensures deleteItemName == old(deleteItemName) && error == old(error)
    {
      if |selectedItems| == 0 {
        return;
      }
      deleteType := Bulk;
      isDeleteModalOpen := true;
    }

    /** confirmBulkDelete, with the server's answer: on success the selected
        items go and the selection empties; otherwise both stay and the error
        shows. */
    method ConfirmBulkDelete(success: bool, err: Option<string>)
      requires Valid()
      modifies this, pager
      ensures Valid()
      ensures success ==>
        items == Listing.RemoveIds(old(items), idOf, old(selectedItems)) && selectedItems == [] && error == None
      ensures !success ==>
        items == old(items) && selectedItems == old(selectedItems) && error == Some(Listing.ErrorOr(err, BULK_FAILED))
      ensures searchQuery == old(searchQuery) && isModalOpen == old(isModalOpen)
      ensures editingItem == old(editingItem) && isDeleteModalOpen == old(isDeleteModalOpen)
      ensures deleteType == old(deleteType) && deleteId == old(deleteId)
      ensures deleteItemName == old(deleteItemName)
      ensures success ==>
        pager.currentPage == if old(pager.currentPage) > pager.Total() && pager.Total() > 0 then pager.Total() else old(pager.currentPage)
      ensures !(success) ==> pager.currentPage == old(pager.currentPage)
    {
      error := None;
      if success {
        items := Listing.RemoveIds(items, idOf, selectedItems);
        pager.SetItems(items);
        selectedItems := [];
      } else {
        error := Some(Listing.ErrorOr(err, BULK_FAILED));
      }
    }

    /** handleAdd */
    method Add()
      modifies this
      ensures editingItem == None && isModalOpen
      ensures items == old(items) && selectedItems == old(selectedItems)
      ensures searchQuery == old(searchQuery) && isDeleteModalOpen == old(isDeleteModalOpen)
      ensures deleteType == old(deleteType) && deleteId == old(deleteId)
      ensures deleteItemName == old(deleteItemName) && error == old(error)
    {
      editingItem := None;
      isModalOpen := true;
    }

    /** handleEdit */
    method Edit(item: T)
      modifies this
      ensures editingItem == Some(item) && isModalOpen
      ensures items == old(items) && selectedItems == old(selectedItems)
      ensures searchQuery == old(searchQuery) && isDeleteModalOpen == old(isDeleteModalOpen)
      ensures deleteType == old(deleteType) && deleteId == old(deleteId)
      ensures deleteItemName == old(deleteItemName) && error == old(error)
    {
      editingItem := Some(item);
      isModalOpen := true;
    }

    /** handleSave, with the server's answer mapped to an item: when editing,
        the item with the edited id is replaced; otherwise the item is
        appended. A failure leaves the items and the modal as they were. */
    method Save(reply: Reply<T>)
      requires Valid()
      modifies this, pager
      ensures Valid()
      ensures reply.success && reply.data.Some? ==>
        items == (if old(editingItem).Some?
          then Listing.ReplaceById(old(items), idOf, idOf(old(editingItem).value), reply.data.value)
          else old(items) + [reply.data.value]) &&
        !isModalOpen && editingItem == None && error == None
      ensures !(reply.success && reply.data.Some?) ==>
        items == old(items) && isModalOpen == old(isModalOpen) && editingItem == old(editingItem) &&
        error == Some(Listing.ErrorOr(reply.error, if old(editingItem).Some? then UPDATE_FAILED else CREATE_FAILED))
      ensures selectedItems == old(selectedItems) && searchQuery == old(searchQuery)
      ensures isDeleteModalOpen == old(isDeleteModalOpen) && deleteType == old(deleteType)
      ensures deleteId == old(deleteId) && deleteItemName == old(deleteItemName)
      ensures reply.success && reply.data.Some? ==>
        pager.currentPage == if old(pager.currentPage) > pager.Total() && pager.Total() > 0 then pager.Total() else old(pager.currentPage)
      ensures !(reply.success && reply.data.Some?) ==> pager.currentPage == old(pager.currentPage)
    {
      error := None;
      if reply.success && reply.data.Some? {
        if editingItem.Some? {
          items := Listing.ReplaceById(items, idOf, idOf(editingItem.value), reply.data.value);
        } else {
          items := items + [reply.data.value];
        }
        pager.SetItems(items);
        isModalOpen := false;
        editingItem := None;
      } else {
        error := Some(Listing.ErrorOr(reply.error, if editingItem.Some? then UPDATE_FAILED else CREATE_FAILED));
      }
    }

    /** handleDelete: the single confirmation opens on this item. */
    method Delete(item: T)
      modifies this
      ensures deleteType == Single && deleteId == Some(idOf(item)) && deleteItemName == nameOf(item)
      ensures isDeleteModalOpen
      ensures items == old(items) && selectedItems == old(selectedItems)
      ensures searchQuery == old(searchQuery) && isModalOpen == old(isModalOpen)
      ensures editingItem == old(editingItem) && error == old(error)
    {
      deleteType := Single;
      deleteId := Some(idOf(item));
      deleteItemName := nameOf(item);
      isDeleteModalOpen := true;
    }

    /** confirmSingleDelete, with the server's answer: nothing at all happens
        unless Deletable(deleteId); otherwise the item goes on success, the
        error shows on failure, and the stored id and name are reset. */
    method ConfirmSingleDelete(success: bool, err: Option<string>)
      requires Valid()
      modifies this, pager
      ensures Valid()
      ensures !Deletable(old(deleteId)) ==>
        items == old(items) && error == old(error) && deleteId == old(deleteId) && deleteItemName == old(deleteItemName)
      ensures Deletable(old(deleteId)) && success ==>
        items == Listing.RemoveId(old(items), idOf, old(deleteId).value) && error == None
      ensures Deletable(old(deleteId)) && !success ==>
        items == old(items) && error == Some(Listing.ErrorOr(err, DELETE_FAILED))
      ensures Deletable(old(deleteId)) ==> deleteId == None && deleteItemName == ""
      ensures selectedItems == old(selectedItems) && searchQuery == old(searchQuery)
      ensures isModalOpen == old(isModalOpen) && editingItem == old(editingItem)
      ensures isDeleteModalOpen == old(isDeleteModalOpen) && deleteType == old(deleteType)
      ensures Deletable(old(deleteId)) && success ==>
        pager.currentPage == if old(pager.currentPage) > pager.Total() && pager.Total() > 0 then pager.Total() else old(pager.currentPage)
      ensures !(Deletable(old(deleteId)) && success) ==> pager.currentPage == old(pager.currentPage)
    {
      if !Deletable(deleteId) {
        return;
      }
      error := None;
      if success {
        items := Listing.RemoveId(items, idOf, deleteId.value);
        pager.SetItems(items);
      } else {
        error := Some(Listing.ErrorOr(err, DELETE_FAILED));
      }
      deleteId := None;
      deleteItemName := "";
    }

    /** The confirmation's onClose, which also runs right after onConfirm. */
    method CloseDelete()
      modifies this
      ensures !isDeleteModalOpen && deleteId == None && deleteItemName == ""
      ensures items == old(items) && selectedItems == old(selectedItems)
      ensures searchQuery == old(searchQuery) && isModalOpen == old(isModalOpen)
      ensures editingItem == old(editingItem) && deleteType == old(deleteType) && error == old(error)
    {
      isDeleteModalOpen := false;
      deleteId := None;
      deleteItemName := "";
    }

    /** The form modal's onClose. */
    method CloseModal()
      modifies this
      ensures !isModalOpen && editingItem == None
      ensures items == old(items) && selectedItems == old(selectedItems)
      ensures searchQuery == old(searchQuery) && isDeleteModalOpen == old(isDeleteModalOpen)
      ensures deleteType == old(deleteType) && deleteId == old(deleteId)
      ensures deleteItemName == old(deleteItemName) && error == old(error)
    {
      isModalOpen := false;
      editingItem := None;
    }
  }
}
