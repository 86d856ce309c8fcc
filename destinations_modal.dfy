/** frontend/src/components/outbox/DocumentDestinationsModal.tsx: the master
    record of one document source with the table of its destinations, the
    check boxes that select destinations, and the bulk delete they feed. */
module DestinationsModal {
  import opened Wrappers
  import opened Forms
  import Paging
  import Listing
  import AddDestinationRowModal

  /** A DocumentDestinationRow: the id and the seventeen saved columns. */
  datatype DestinationRow = DestinationRow(id: int, row: AddDestinationRowModal.NewRow)

  function IdOf(d: DestinationRow): int {
    d.id
  }

  /** The five reference control numbers of a document source, in order. */
  function RefFields(document: Form): (r: seq<string>)
    ensures |r| == 5
  {
    [Field(document, "referenceDocumentControlNo1"), Field(document, "referenceDocumentControlNo2"),
     Field(document, "referenceDocumentControlNo3"), Field(document, "referenceDocumentControlNo4"),
     Field(document, "referenceDocumentControlNo5")]
  }

  /** refs: the reference control numbers filtered with Boolean, which keeps
      exactly the non-empty ones, in their order. */
  function Refs(document: Form): (r: seq<string>)
    ensures |r| <= 5
    ensures forall i :: 0 <= i < |r| ==> r[i] != "" && r[i] in RefFields(document)
    ensures forall i :: 0 <= i < 5 && RefFields(document)[i] != "" ==> RefFields(document)[i] in r
  {
    Paging.Keep(RefFields(document), s => s != "")
  }

  /** With all five references filled, refs lists them all, in order. */
  lemma AllRefsKept(document: Form)
    requires forall i :: 0 <= i < 5 ==> RefFields(document)[i] != ""
    ensures Refs(document) == RefFields(document)
  {
    Paging.KeepEvery(RefFields(document), s => s != "");
  }

  /** With none filled, refs is empty. */
  lemma NoRefs(document: Form)
    requires forall i :: 0 <= i < 5 ==> RefFields(document)[i] == ""
    ensures Refs(document) == []
  {
    Paging.KeepNone(RefFields(document), s => s != "");
  }

  /** The header check box, ticked when there are destinations and the
      selection is as long as the list; Listing.HeaderMeansAll says when that
      means every destination is selected. */
  predicate HeaderChecked(selected: seq<int>, destinations: seq<DestinationRow>) {
    Listing.HeaderChecked(selected, |destinations|)
  }

  /** The Delete Selected button is disabled exactly when nothing is selected. */
  predicate DeleteDisabled(selected: seq<int>) {
    |selected| == 0
  }

  /** The labels of the header row after its check box column. */
  const HEADER_LABELS: seq<string> := [
    "Route No.", "Sequence No.", "Destination Office", "Employee (Action Officer)", "Action Required",
    "Date Released", "Time Released", "Date Required", "Time Required", "Remarks", "Action Taken"]

  /** The fields each destination row shows after its check box, in order. */
  const CELL_FIELDS: seq<string> := [
    "documentControlNo", "routeNo", "sequenceNo", "destinationOffice", "employeeActionOfficer",
    "actionRequired", "dateReleased", "timeReleased", "dateRequired", "timeRequired", "remarks",
    "actionTaken"]

  /** The label that names a field, as the modal words it: the master record
      labels the control number "Document Control No.", the header the rest. */
  function LabelOf(field: string): string {
    match field
    case "documentControlNo" => "Document Control No."
    case "routeNo" => "Route No."
    case "sequenceNo" => "Sequence No."
    case "destinationOffice" => "Destination Office"
    case "employeeActionOfficer" => "Employee (Action Officer)"
    case "actionRequired" => "Action Required"
    case "dateReleased" => "Date Released"
    case "timeReleased" => "Time Released"
    case "dateRequired" => "Date Required"
    case "timeRequired" => "Time Required"
    case "remarks" => "Remarks"
    case "actionTaken" => "Action Taken"
    case _ => ""
  }

  /** As written, the header is one label short: every label sits one column
      to the left of the field it names, so "Route No." heads the control
      numbers and the action taken column has no heading. */
  lemma HeaderShifted()
    ensures |HEADER_LABELS| + 1 == |CELL_FIELDS|
    ensures forall k :: 0 <= k < |HEADER_LABELS| ==> HEADER_LABELS[k] == LabelOf(CELL_FIELDS[k + 1])
    ensures forall k :: 0 <= k < |HEADER_LABELS| ==> HEADER_LABELS[k] != LabelOf(CELL_FIELDS[k])
  {
  }

  /** The header with the control number's label put in front. */
  const CORRECTED_LABELS: seq<string> := ["Document Control No."] + HEADER_LABELS

  /** Corrected, every column's label names the field under it. */
  lemma CorrectedHeaderAligned()
    ensures |CORRECTED_LABELS| == |CELL_FIELDS|
    ensures forall k :: 0 <= k < |CELL_FIELDS| ==> CORRECTED_LABELS[k] == LabelOf(CELL_FIELDS[k])
  {
  }

  class Modal {
    var selectedDestinationIds: seq<int>

    constructor()
      ensures selectedDestinationIds == []
    {
      selectedDestinationIds := [];
    }

    /** handleSelectAllDestinations: every listed id when the box is ticked,
        none when it is not. */
    method SelectAll(checked: bool, destinations: seq<DestinationRow>)
      modifies this
      ensures selectedDestinationIds == if checked then Listing.Ids(destinations, IdOf) else []
      ensures Listing.Distinct(Listing.Ids(destinations, IdOf)) ==> Listing.Distinct(selectedDestinationIds)
    {
      if checked {
        selectedDestinationIds := Listing.Ids(destinations, IdOf);
      } else {
        selectedDestinationIds := [];
      }
    }

    /** handleSelectDestination: the row's box toggles its id. */
    method SelectDestination(id: int)
      modifies this
      ensures selectedDestinationIds == Listing.Toggle(old(selectedDestinationIds), id)
      ensures Listing.Distinct(old(selectedDestinationIds)) ==> Listing.Distinct(selectedDestinationIds)
    {
      if Listing.Distinct(selectedDestinationIds) {
        Listing.ToggleKeepsDistinct(selectedDestinationIds, id);
      }
      selectedDestinationIds := Listing.Toggle(selectedDestinationIds, id);
    }

    /** handleDeleteSelected: nothing happens with nothing selected; otherwise
        the selected ids go to onDeleteDestinations and the selection empties. */
    method DeleteSelected() returns (deleted: Option<seq<int>>)
      modifies this
      ensures old(selectedDestinationIds) == [] ==> deleted == None && selectedDestinationIds == []
      ensures old(selectedDestinationIds) != [] ==>
        deleted == Some(old(selectedDestinationIds)) && selectedDestinationIds == []
    {
      if |selectedDestinationIds| == 0 {
        deleted := None;
        return;
      }
      deleted := Some(selectedDestinationIds);
      selectedDestinationIds := [];
    }
  }
}
