/** frontend/src/pages/reference-tables/Region.tsx: the region item, how a
    server row becomes one, and the page's search filter. The page's state and
    handlers are ReferencePage.Page over these items. */
module RegionPage {
  import opened Wrappers
  import opened Text
  import opened PyValue
  import opened ReferencePage
  import Forms
  import RegionModal

  datatype RegionItem = RegionItem(
    id: int, regionName: string, nscbCode: string, nscbName: string, addedBy: string, status: string,
    dateUpdated: string)

  function IdOf(item: RegionItem): int {
    item.id
  }

  /** The name the delete confirmation shows. */
  function NameOf(item: RegionItem): string {
    item.regionName
  }

  /** The mapping of fetchItems and handleSave: each text column read with
      `|| ''`, the update time taken from updated_at, else date_updated. */
  function MapItem(row: Row): (r: RegionItem)
    ensures r.id == row.id
    ensures r.regionName == TextColumn(row.columns, "region_name") && r.nscbCode == TextColumn(row.columns, "nscb_code")
    ensures r.nscbName == TextColumn(row.columns, "nscb_name") && r.addedBy == TextColumn(row.columns, "added_by")
    ensures r.status == TextColumn(row.columns, "status")
    ensures r.dateUpdated == if TextColumn(row.columns, "updated_at") != "" then TextColumn(row.columns, "updated_at")
      else TextColumn(row.columns, "date_updated")
  {
    var updated := TextColumn(row.columns, "updated_at");
    RegionItem(
      row.id, TextColumn(row.columns, "region_name"), TextColumn(row.columns, "nscb_code"),
      TextColumn(row.columns, "nscb_name"), TextColumn(row.columns, "added_by"), TextColumn(row.columns, "status"),
      if updated != "" then updated else TextColumn(row.columns, "date_updated"))
  }

  /** The rows of a fetch, mapped in order. */
  function MapItems(rows: seq<Row>): (r: seq<RegionItem>)
    ensures |r| == |rows| && forall i :: 0 <= i < |rows| ==> r[i] == MapItem(rows[i])
  {
    seq(|rows|, i requires 0 <= i < |rows| => MapItem(rows[i]))
  }

  /** The form the edit modal opens on for an item: the item's five text
      fields, under the snake_case names the modal reads (the id the page also
      passes is not a form field). */
  function InitialData(item: RegionItem): Forms.Form {
    map["region_name" := item.regionName, "nscb_code" := item.nscbCode,
        "nscb_name" := item.nscbName, "added_by" := item.addedBy, "status" := item.status]
  }

  /** Editing an item shows its own five fields in the modal. */
  lemma EditShowsItem(item: RegionItem)
    ensures var f := RegionModal.Opened(InitialData(item));
      f["regionName"] == item.regionName && f["nscbCode"] == item.nscbCode && f["nscbName"] == item.nscbName &&
      f["addedBy"] == item.addedBy && f["status"] == item.status
  {
  }

  /** The row a stored text column holds as given: a saved item maps back to
      the same fields. */
  lemma MapStoredRow(id: int, item: RegionItem)
    ensures var row := Row(id, map[
        "region_name" := Str(item.regionName), "nscb_code" := Str(item.nscbCode), "nscb_name" := Str(item.nscbName),
        "added_by" := Str(item.addedBy), "status" := Str(item.status), "updated_at" := Str(item.dateUpdated)]);
      item.dateUpdated != "" ==> MapItem(row) == item.(id := id)
  {
  }

  /** The search filter: the lowercased query must occur in the padded id or
      in one of the five lowercased text fields. */
  predicate Matches(item: RegionItem, query: string) {
    var q := Lower(query);
    Includes(PaddedId(item.id), q) || Includes(Lower(item.regionName), q) || Includes(Lower(item.nscbCode), q) ||
    Includes(Lower(item.nscbName), q) || Includes(Lower(item.addedBy), q) || Includes(Lower(item.status), q)
  }

  /** The search ignores the query's case. */
  lemma SearchIgnoresCase(item: RegionItem, query: string)
    ensures Matches(item, query) <==> Matches(item, Lower(query))
  {
    LowerTwice(query);
  }

  /** An item is found by its region name, typed in any case. */
  lemma FoundByName(item: RegionItem)
    ensures Matches(item, item.regionName)
  {
    IncludesItself(Lower(item.regionName));
  }

  /** An item with a non-negative id is found by the id as the table shows it. */
  lemma FoundById(item: RegionItem)
    requires item.id >= 0
    ensures Matches(item, PaddedId(item.id))
  {
    PaddedIdFound(item.id);
  }

  /** The page: its items, twenty a page, searched with Matches. */
  method NewPage() returns (p: Page<RegionItem>)
    ensures p.Valid() && fresh(p) && fresh(p.pager)
    ensures p.items == [] && p.selectedItems == [] && p.pager.filter == Some(Matches)
    ensures p.idOf == IdOf && p.nameOf == NameOf
  {
    p := new Page(IdOf, NameOf, Matches, (item: RegionItem) => item.regionName);
  }
}
