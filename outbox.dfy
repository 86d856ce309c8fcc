/** frontend/src/pages/Outbox.tsx: the outbox page's document list, its check
    box selection, the add, update and delete handlers, and the modal state
    they drive. The list lives in the page only; window.confirm's answer and
    Date.now() are parameters. */
module Outbox {
  import opened Wrappers
  import opened Forms
  import Listing
  import PageControls
  import Documents
  import AddDocumentModal
  import InlineEditModal

  type Document = Documents.Document

  /** The footer's itemsPerPage. */
  const PER_PAGE := 10

  datatype Mode = View | Edit

  /** The list after handleDeleteSelected; Listing.RemoveIds says which
      documents stay. */
  function AfterBulkDelete(documents: seq<Document>, selected: seq<int>, confirmed: bool): seq<Document> {
    if selected != [] && confirmed then Listing.RemoveIds(documents, Documents.IdOf, selected) else documents
  }

  /** A confirmed bulk delete leaves no selected document and every other one,
      in order; a refused one, or one with nothing selected, changes nothing. */
  lemma BulkDeleteSpec(documents: seq<Document>, selected: seq<int>, confirmed: bool)
    ensures var r := AfterBulkDelete(documents, selected, confirmed);
      (selected == [] || !confirmed ==> r == documents) &&
      (forall i :: 0 <= i < |r| ==> r[i] in documents) &&
      (confirmed ==> forall i :: 0 <= i < |r| ==> r[i].id !in selected) &&
      (forall i :: 0 <= i < |documents| && documents[i].id !in selected ==> documents[i] in r)
  {
  }

  /** The document handleAddDocument appends for what the add modal passed,
      at clock reading now: every field read with `|| ''`, the id replaced. */
  function NewDocument(given: Document, now: int): (d: Document)
    ensures Documents.Complete(d) && d.id == now
  {
    Documents.Filled(now, given.fields)
  }

  /** The add modal's document already holds every field, so the page keeps
      its fields unchanged and only stamps a new id. */
  lemma AddKeepsModalFields(m: Document, now: int)
    requires Documents.Complete(m)
    ensures NewDocument(m, now) == Documents.Document(now, m.fields)
  {
    Documents.FilledComplete(Documents.Document(now, m.fields));
  }

  /** A document added at a fresh clock reading keeps the ids distinct, and
      deleting it again gives back the list as it was. */
  lemma AddThenDelete(documents: seq<Document>, given: Document, now: int)
    requires forall i :: 0 <= i < |documents| ==> documents[i].id != now
    ensures Listing.Distinct(Listing.Ids(documents, Documents.IdOf)) ==>
      Listing.Distinct(Listing.Ids(documents + [NewDocument(given, now)], Documents.IdOf))
    ensures Listing.RemoveId(documents + [NewDocument(given, now)], Documents.IdOf, now) == documents
  {
    var d := NewDocument(given, now);
    Listing.RemoveIdSnoc(documents, Documents.IdOf, d);
    Listing.RemoveMissingId(documents, Documents.IdOf, now);
    Listing.IdsSnoc(documents, Documents.IdOf, d);
  }

  /** Two documents added within the same millisecond share their id, and one
      delete removes both. */
  lemma SameInstantCollides(given1: Document, given2: Document, now: int)
    ensures var ds := [NewDocument(given1, now), NewDocument(given2, now)];
      ds[0].id == ds[1].id && Listing.RemoveId(ds, Documents.IdOf, now) == []
  {
    var ds := [NewDocument(given1, now), NewDocument(given2, now)];
    assert ds == [ds[0]] + [ds[1]];
    Listing.RemoveIdSnoc([ds[0]], Documents.IdOf, ds[1]);
    Listing.RemoveIdSnoc([], Documents.IdOf, ds[0]);
    assert [] + [ds[0]] == [ds[0]];
  }

  /** What the page saves from an edit replaces the document with the same
      id and nothing else; an unknown id changes nothing. */
  lemma UpdateSpec(documents: seq<Document>, updated: Document)
    ensures var r := Listing.ReplaceById(documents, Documents.IdOf, updated.id, updated);
      |r| == |documents| &&
      (forall i :: 0 <= i < |documents| ==> r[i] == if documents[i].id == updated.id then updated else documents[i])
    ensures (forall i :: 0 <= i < |documents| ==> documents[i].id != updated.id) ==>
      Listing.ReplaceById(documents, Documents.IdOf, updated.id, updated) == documents
  {
    if forall i :: 0 <= i < |documents| ==> documents[i].id != updated.id {
      Listing.ReplaceMissing(documents, Documents.IdOf, updated.id, updated);
    }
  }

  /** The footer counts ten items per page while the one page lists them
      all: past ten documents it shows "1 to 10 of n" and no next page. */
  lemma FooterUndercounts(n: int)
    requires n > PER_PAGE
    ensures PageControls.StartItem(1, PER_PAGE, n) == 1 && PageControls.EndItem(1, PER_PAGE, n) == PER_PAGE
    ensures PageControls.Next(1, 1).None?
  {
  }

  class Page {
    var documents: seq<Document>
    var selectedItems: seq<int>
    var isAddModalOpen: bool
    var isDetailModalOpen: bool
    var isRoutingSlipModalOpen: bool
    var isInlineEditModalOpen: bool
    var selectedDocument: Option<Document>
    var detailModalMode: Mode
    var currentPage: int
    const totalPages: int

    constructor()
      ensures documents == [] && selectedItems == [] && selectedDocument == None
      ensures !isAddModalOpen && !isDetailModalOpen && !isRoutingSlipModalOpen && !isInlineEditModalOpen
      ensures detailModalMode == View && currentPage == 1 && totalPages == 1
    {
      documents := [];
      selectedItems := [];
      isAddModalOpen := false;
      isDetailModalOpen := false;
      isRoutingSlipModalOpen := false;
      isInlineEditModalOpen := false;
      selectedDocument := None;
      detailModalMode := View;
      currentPage := 1;
      totalPages := 1;
    }

    /** The select-all box's checked state. */
    function HeaderChecked(): bool
      reads this
    {
      Listing.HeaderChecked(selectedItems, |documents|)
    }

    /** handlePageChange: only a page in [1, totalPages] is taken. */
    method HandlePageChange(page: int)
      modifies this
      ensures currentPage == if 1 <= page <= totalPages then page else old(currentPage)
      ensures documents == old(documents) && selectedItems == old(selectedItems)
      ensures isAddModalOpen == old(isAddModalOpen) && isDetailModalOpen == old(isDetailModalOpen)
      ensures isRoutingSlipModalOpen == old(isRoutingSlipModalOpen)
      ensures isInlineEditModalOpen == old(isInlineEditModalOpen)
      ensures selectedDocument == old(selectedDocument) && detailModalMode == old(detailModalMode)
    {
      if page >= 1 && page <= totalPages {
        currentPage := page;
      }
    }

    /** handleSelectAll */
    method SelectAll(checked: bool)
      modifies this
      ensures selectedItems == if checked then Listing.Ids(documents, Documents.IdOf) else []
      ensures documents == old(documents) && currentPage == old(currentPage)
      ensures isAddModalOpen == old(isAddModalOpen) && isDetailModalOpen == old(isDetailModalOpen)
      ensures isRoutingSlipModalOpen == old(isRoutingSlipModalOpen)
      ensures isInlineEditModalOpen == old(isInlineEditModalOpen)
      ensures selectedDocument == old(selectedDocument) && detailModalMode == old(detailModalMode)
    {
      if checked {
        selectedItems := Listing.Ids(documents, Documents.IdOf);
      } else {
        selectedItems := [];
      }
    }

    /** handleSelectItem: the row's box toggles its id. */
    method SelectItem(id: int)
      modifies this
      ensures selectedItems == Listing.Toggle(old(selectedItems), id)
      ensures Listing.Distinct(old(selectedItems)) ==> Listing.Distinct(selectedItems)
      ensures documents == old(documents) && currentPage == old(currentPage)
      ensures isAddModalOpen == old(isAddModalOpen) && isDetailModalOpen == old(isDetailModalOpen)
      ensures isRoutingSlipModalOpen == old(isRoutingSlipModalOpen)
      ensures isInlineEditModalOpen == old(isInlineEditModalOpen)
      ensures selectedDocument == old(selectedDocument) && detailModalMode == old(detailModalMode)
    {
      if Listing.Distinct(selectedItems) {
        Listing.ToggleKeepsDistinct(selectedItems, id);
      }
      selectedItems := Listing.Toggle(selectedItems, id);
    }

    /** handleDeleteSelected, with the answer to window.confirm: nothing
        happens with nothing selected or when refused; otherwise the selected
        documents go and the selection empties. */
    method DeleteSelected(confirmed: bool)
      modifies this
      ensures documents == AfterBulkDelete(old(documents), old(selectedItems), confirmed)
      ensures selectedItems == if old(selectedItems) != [] && confirmed then [] else old(selectedItems)
      ensures currentPage == old(currentPage) && isAddModalOpen == old(isAddModalOpen)
      ensures isDetailModalOpen == old(isDetailModalOpen)
      ensures isRoutingSlipModalOpen == old(isRoutingSlipModalOpen)
      ensures isInlineEditModalOpen == old(isInlineEditModalOpen)
      ensures selectedDocument == old(selectedDocument) && detailModalMode == old(detailModalMode)
    {
      if |selectedItems| == 0 {
        return;
      }
      if confirmed {
        documents := Listing.RemoveIds(documents, Documents.IdOf, selectedItems);
        selectedItems := [];
      }
    }

    /** The Add button. */
    method OpenAdd()
      modifies this
      ensures isAddModalOpen
      ensures documents == old(documents) && selectedItems == old(selectedItems)
      ensures currentPage == old(currentPage) && isDetailModalOpen == old(isDetailModalOpen)
      ensures isRoutingSlipModalOpen == old(isRoutingSlipModalOpen)
      ensures isInlineEditModalOpen == old(isInlineEditModalOpen)
      ensures selectedDocument == old(selectedDocument) && detailModalMode == old(detailModalMode)
    {
      isAddModalOpen := true;
    }

    /** The add modal's onClose. */
    method CloseAdd()
      modifies this
      ensures !isAddModalOpen
      ensures documents == old(documents) && selectedItems == old(selectedItems)
      ensures currentPage == old(currentPage) && isDetailModalOpen == old(isDetailModalOpen)
      ensures isRoutingSlipModalOpen == old(isRoutingSlipModalOpen)
      ensures isInlineEditModalOpen == old(isInlineEditModalOpen)
      ensures selectedDocument == old(selectedDocument) && detailModalMode == old(detailModalMode)
    {
      isAddModalOpen := false;
    }

    /** handleAddDocument at clock reading now. */
    method AddDocument(given: Document, now: int)
      modifies this
      ensures documents == old(documents) + [NewDocument(given, now)]
      ensures selectedItems == old(selectedItems) && currentPage == old(currentPage)
      ensures isAddModalOpen == old(isAddModalOpen) && isDetailModalOpen == old(isDetailModalOpen)
      ensures isRoutingSlipModalOpen == old(isRoutingSlipModalOpen)
      ensures isInlineEditModalOpen == old(isInlineEditModalOpen)
      ensures selectedDocument == old(selectedDocument) && detailModalMode == old(detailModalMode)
    {
      documents := documents + [NewDocument(given, now)];
    }

    /** handleRowClick, and handleView and handleEdit with their mode. */
    method OpenDetail(document: Document, mode: Option<Mode>)
      modifies this
      ensures selectedDocument == Some(document) && isDetailModalOpen
      ensures detailModalMode == if mode.Some? then mode.value else old(detailModalMode)
      ensures documents == old(documents) && selectedItems == old(selectedItems)
      ensures currentPage == old(currentPage) && isAddModalOpen == old(isAddModalOpen)
      ensures isRoutingSlipModalOpen == old(isRoutingSlipModalOpen)
      ensures isInlineEditModalOpen == old(isInlineEditModalOpen)
    {
      selectedDocument := Some(document);
      if mode.Some? {
        detailModalMode := mode.value;
      }
      isDetailModalOpen := true;
    }

    /** handleRoutingSlip */
    method OpenRoutingSlip(document: Document)
      modifies this
      ensures selectedDocument == Some(document) && isRoutingSlipModalOpen
      ensures documents == old(documents) && selectedItems == old(selectedItems)
      ensures currentPage == old(currentPage) && isAddModalOpen == old(isAddModalOpen)
      ensures isDetailModalOpen == old(isDetailModalOpen)
      ensures isInlineEditModalOpen == old(isInlineEditModalOpen)
      ensures detailModalMode == old(detailModalMode)
    {
      selectedDocument := Some(document);
      isRoutingSlipModalOpen := true;
    }

    /** handleInlineEdit */
    method OpenInlineEdit(document: Document)
      modifies this
      ensures selectedDocument == Some(document) && isInlineEditModalOpen
      ensures documents == old(documents) && selectedItems == old(selectedItems)
      ensures currentPage == old(currentPage) && isAddModalOpen == old(isAddModalOpen)
      ensures isDetailModalOpen == old(isDetailModalOpen)
      ensures isRoutingSlipModalOpen == old(isRoutingSlipModalOpen)
      ensures detailModalMode == old(detailModalMode)
    {
      selectedDocument := Some(document);
      isInlineEditModalOpen := true;
    }

    /** handleUpdateDocument, which handleInlineEditSave repeats: the document
        with the same id is replaced, and becomes the selected one. */
    method UpdateDocument(updated: Document)
      modifies this
      ensures documents == Listing.ReplaceById(old(documents), Documents.IdOf, updated.id, updated)
      ensures selectedDocument == Some(updated)
      ensures selectedItems == old(selectedItems) && currentPage == old(currentPage)
      ensures isAddModalOpen == old(isAddModalOpen) && isDetailModalOpen == old(isDetailModalOpen)
      ensures isRoutingSlipModalOpen == old(isRoutingSlipModalOpen)
      ensures isInlineEditModalOpen == old(isInlineEditModalOpen)
      ensures detailModalMode == old(detailModalMode)
    {
      documents := Listing.ReplaceById(documents, Documents.IdOf, updated.id, updated);
      selectedDocument := Some(updated);
    }

    /** handleDeleteDocument, with the answer to window.confirm: a confirmed
        delete removes the documents with that id and, when it is the
        selected one, closes the detail modal. */
    method DeleteDocument(id: int, confirmed: bool)
      modifies this
      ensures documents == if confirmed then Listing.RemoveId(old(documents), Documents.IdOf, id) else old(documents)
      ensures confirmed && old(selectedDocument).Some? && old(selectedDocument).value.id == id ==>
        selectedDocument == None && !isDetailModalOpen
      ensures !(confirmed && old(selectedDocument).Some? && old(selectedDocument).value.id == id) ==>
        selectedDocument == old(selectedDocument) && isDetailModalOpen == old(isDetailModalOpen)
      ensures selectedItems == old(selectedItems) && currentPage == old(currentPage)
      ensures isAddModalOpen == old(isAddModalOpen)
      ensures isRoutingSlipModalOpen == old(isRoutingSlipModalOpen)
      ensures isInlineEditModalOpen == old(isInlineEditModalOpen)
      ensures detailModalMode == old(detailModalMode)
    {
      if confirmed {
        documents := Listing.RemoveId(documents, Documents.IdOf, id);
        if selectedDocument.Some? && selectedDocument.value.id == id {
          isDetailModalOpen := false;
          selectedDocument := None;
        }
      }
    }

    /** The detail modal's onClose. */
    method CloseDetail()
      modifies this
      ensures !isDetailModalOpen && selectedDocument == None && detailModalMode == View
      ensures documents == old(documents) && selectedItems == old(selectedItems)
      ensures currentPage == old(currentPage) && isAddModalOpen == old(isAddModalOpen)
      ensures isRoutingSlipModalOpen == old(isRoutingSlipModalOpen)
      ensures isInlineEditModalOpen == old(isInlineEditModalOpen)
    {
      isDetailModalOpen := false;
      selectedDocument := None;
      detailModalMode := View;
    }

    /** The routing slip's onClose. */
    method CloseRoutingSlip()
      modifies this
      ensures !isRoutingSlipModalOpen && selectedDocument == None
      ensures documents == old(documents) && selectedItems == old(selectedItems)
      ensures currentPage == old(currentPage) && isAddModalOpen == old(isAddModalOpen)
      ensures isDetailModalOpen == old(isDetailModalOpen)
      ensures isInlineEditModalOpen == old(isInlineEditModalOpen)
      ensures detailModalMode == old(detailModalMode)
    {
      isRoutingSlipModalOpen := false;
      selectedDocument := None;
    }

    /** The inline edit's onClose. */
    method CloseInlineEdit()
      modifies this
      ensures !isInlineEditModalOpen && selectedDocument == None
      ensures documents == old(documents) && selectedItems == old(selectedItems)
      ensures currentPage == old(currentPage) && isAddModalOpen == old(isAddModalOpen)
      ensures isDetailModalOpen == old(isDetailModalOpen)
      ensures isRoutingSlipModalOpen == old(isRoutingSlipModalOpen)
      ensures detailModalMode == old(detailModalMode)
    {
      isInlineEditModalOpen := false;
      selectedDocument := None;
    }
  }

  /** Adding what the add modal accepted and then saving an inline edit of
      it that the inline edit accepts: the list holds the edit at the new id. */
  lemma AddThenInlineEdit(documents: seq<Document>, form: Form, now: int, edited: Form)
    requires forall i :: 0 <= i < |documents| ==> documents[i].id != now
    requires AddDocumentModal.Errors(form) == map[]
    ensures InlineEditModal.Errors(Documents.Filled(now, form).fields) == map[]
    ensures var added := documents + [NewDocument(Documents.Document(now, form), now)];
      Listing.ReplaceById(added, Documents.IdOf, now, Documents.Document(now, edited)) ==
        documents + [Documents.Document(now, edited)]
  {
    var f := Documents.Filled(now, form).fields;
    AddDocumentModal.AcceptedIff(form);
    InlineEditModal.AcceptedIff(f);
    assert Field(f, "documentControlNo") == Field(form, "documentControlNo");
    assert Field(f, "routeNo") == Field(form, "routeNo");
    assert Field(f, "officeControlNo") == Field(form, "officeControlNo");
    assert Field(f, "subject") == Field(form, "subject");
  }
}
