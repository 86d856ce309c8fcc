/** frontend/src/pages/reference-tables/ActionTaken.tsx: the action taken
    item, how a fetched or saved row becomes one, the page's search filter, and
    how what the page sends meets the views of backend/api/views/action_taken.py.
    The page's state and handlers are ReferencePage.Page over these items. */
module ActionTakenPage {
  import opened Wrappers
  import opened Text
  import opened PyValue
  import opened ReferencePage
  import Forms
  import Views
  import ActionTaken

  datatype ActionTakenItem = ActionTakenItem(id: int, actionTaken: string)

  function IdOf(item: ActionTakenItem): int {
    item.id
  }

  /** The name the delete confirmation shows. */
  function NameOf(item: ActionTakenItem): string {
    item.actionTaken
  }

  /** fetchItems' mapping: the action_taken column, '' when it is missing. */
  function MapFetched(row: Row): (r: ActionTakenItem)
    ensures r.id == row.id
    ensures "action_taken" in row.columns && row.columns["action_taken"].Str? ==>
      r.actionTaken == row.columns["action_taken"].s
    ensures !("action_taken" in row.columns && row.columns["action_taken"].Str?) ==> r.actionTaken == ""
  {
    ActionTakenItem(row.id, TextColumn(row.columns, "action_taken"))
  }

  function MapFetchedAll(rows: seq<Row>): (r: seq<ActionTakenItem>)
    ensures |r| == |rows| && forall i :: 0 <= i < |rows| ==> r[i] == MapFetched(rows[i])
  {
    seq(|rows|, i requires 0 <= i < |rows| => MapFetched(rows[i]))
  }

  /** handleSave's mapping: the server's action_taken, or the text that was
      sent when the reply's column is empty. */
  function MapSaved(row: Row, sent: string): (r: ActionTakenItem)
    ensures r.id == row.id
    ensures TextColumn(row.columns, "action_taken") != "" ==> r.actionTaken == TextColumn(row.columns, "action_taken")
    ensures TextColumn(row.columns, "action_taken") == "" ==> r.actionTaken == sent
  {
    var stored := TextColumn(row.columns, "action_taken");
    ActionTakenItem(row.id, if stored != "" then stored else sent)
  }

  /** A saved item shows what the next fetch shows, unless the reply's column
      was empty and something was sent: then the table shows the sent text until
      the next fetch replaces it with ''. */
  lemma SavedAgreesWithFetch(row: Row, sent: string)
    ensures MapSaved(row, sent) == MapFetched(row) <==> TextColumn(row.columns, "action_taken") != "" || sent == ""
  {
  }

  /** The page's create and update send only the action taken text. */
  function Sent(text: string): Forms.Form {
    map["actionTaken" := text]
  }

  /** The create view requires a code as well, so every body of the shape
      handleSave is declared to take, `{ actionTaken }`, is refused, whatever
      the text. */
  lemma CreateRefused(text: string)
    ensures ActionTaken.CreateRecord(Forms.Body(Sent(text))) == Err(ActionTaken.CODE_REQUIRED)
  {
    ActionTaken.NoCodeNoItem(Forms.Body(Sent(text)));
  }

  /** The body the create view expects: the code beside the text. */
  function SentWithCode(code: string, text: string): Forms.Form {
    map["actionTakenCode" := code, "actionTaken" := text]
  }

  /** Sent with its code, a create is accepted exactly when code and text are
      both non-empty, and stores exactly that pair. */
  lemma CodedCreateAccepted(code: string, text: string)
    ensures var r := ActionTaken.CreateRecord(Forms.Body(SentWithCode(code, text)));
      (r.Ok? <==> code != "" && text != "") &&
      (r.Ok? ==> r.value == map["action_taken_code" := Str(code), "action_taken" := Str(text)]) &&
      (r.Err? && code != "" ==> r == Err(ActionTaken.NAME_REQUIRED))
  {
    var body := Forms.Body(SentWithCode(code, text));
    assert Get(body, "actionTakenCode") == Str(code);
    assert Get(body, "actionTaken") == Str(text);
    var r := ActionTaken.CreateRecord(body);
    if r.Ok? {
      assert r.value.Keys == {"action_taken_code", "action_taken"};
    }
  }

  /** An update is accepted and sets just the action_taken column, to the text
      sent. */
  lemma UpdateSetsText(text: string)
    ensures var r := Views.PatchOrEmpty(ActionTaken.FIELDS, Forms.Body(Sent(text)));
      r.Ok? && r.value.Keys == {"action_taken"} && r.value["action_taken"] == Str(text)
  {
    var body := Forms.Body(Sent(text));
    ActionTaken.UpdateRefused(body);
    assert ActionTaken.FIELDS[1].camel in body;
    ActionTaken.UpdatePatchExact(body);
  }

  /** The search filter: the lowercased query must occur in the padded id or
      in the lowercased text. */
  predicate Matches(item: ActionTakenItem, query: string) {
    var q := Lower(query);
    Includes(PaddedId(item.id), q) || Includes(Lower(item.actionTaken), q)
  }

  /** The search ignores the query's case. */
  lemma SearchIgnoresCase(item: ActionTakenItem, query: string)
    ensures Matches(item, query) <==> Matches(item, Lower(query))
  {
    LowerTwice(query);
  }

  /** An item is found by its own text, and one with a non-negative id by the
      id as the table shows it. */
  lemma FoundByOwnFields(item: ActionTakenItem)
    ensures Matches(item, item.actionTaken)
    ensures item.id >= 0 ==> Matches(item, PaddedId(item.id))
  {
    IncludesItself(Lower(item.actionTaken));
    if item.id >= 0 {
      PaddedIdFound(item.id);
    }
  }

  /** The page: its items, twenty a page, searched with Matches. */
  method NewPage() returns (p: Page<ActionTakenItem>)
    ensures p.Valid() && fresh(p) && fresh(p.pager)
    ensures p.items == [] && p.selectedItems == [] && p.pager.filter == Some(Matches)
    ensures p.idOf == IdOf && p.nameOf == NameOf
  {
    p := new Page(IdOf, NameOf, Matches, (item: ActionTakenItem) => item.actionTaken);
  }
}
