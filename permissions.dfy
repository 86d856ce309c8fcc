/** frontend/src/components/reference-tables/UserLevelPermissionsModal.tsx:
    the matrix of four permission kinds over the nineteen tables of a user
    level, its select-all row, and the table-name map it hands to onUpdate. */
module Permissions {

  datatype Kind = AddCopy | Delete | Edit | ListSearchView

  datatype Permission = Permission(addCopy: bool, delete: bool, edit: bool, listSearchView: bool)
  {
    function Has(k: Kind): bool {
      match k
      case AddCopy => addCopy
      case Delete => delete
      case Edit => edit
      case ListSearchView => listSearchView
    }

    /** { ...permissions, [kind]: value } */
    function With(k: Kind, value: bool): (r: Permission)
      ensures r.Has(k) == value
      ensures forall j :: j != k ==> r.Has(j) == Has(j)
    {
      match k
      case AddCopy => this.(addCopy := value)
      case Delete => this.(delete := value)
      case Edit => this.(edit := value)
      case ListSearchView => this.(listSearchView := value)
    }
  }

  datatype Color = Green | Red | Normal

  datatype TablePermission = TablePermission(tableName: string, displayName: string, color: Color, permissions: Permission)

  const NONE := Permission(false, false, false, false)
  const ALL := Permission(true, true, true, true)

  /** initialTables */
  const INITIAL: seq<TablePermission> := [
    TablePermission("action_officer", "Action Office", Normal, NONE),
    TablePermission("action_required", "Action Required", Normal, NONE),
    TablePermission("action_taken", "Action Taken", Normal, NONE),
    TablePermission("document_type", "Document Type", Normal, NONE),
    TablePermission("document_destination", "Document Destination", Normal, ALL),
    TablePermission("document_source_outbox", "Document Source (OUTBOX)", Green, ALL),
    TablePermission("office", "Office", Normal, NONE),
    TablePermission("region", "Region", Normal, NONE),
    TablePermission("time_required", "Time Required", Normal, NONE),
    TablePermission("user_account", "User Account", Normal, NONE),
    TablePermission("external_documents", "External Documents", Normal, ALL),
    TablePermission("custom_action_officer", "custom action officer", Normal, NONE),
    TablePermission("customview_docdetails_origin", "Custom View docdetails origin", Normal, NONE),
    TablePermission("customview_doc_link", "customview doc link", Normal, NONE),
    TablePermission("test_doc", "test doc", Normal, ALL),
    TablePermission("inbox_received", "INBOX - Received", Red, ALL),
    TablePermission("inbox_action_taken", "INBOX - Action Taken", Normal, ALL),
    TablePermission("personal_group", "Personal Group", Normal, NONE),
    TablePermission("document_action_required_days", "Document/Action Required Days", Normal, NONE)
  ]

  predicate DistinctNames(ts: seq<TablePermission>) {
    forall i, j :: 0 <= i < j < |ts| ==> ts[i].tableName != ts[j].tableName
  }

  /** The table names of initialTables, in order. */
  const NAMES: seq<string> := [
    "action_officer", "action_required", "action_taken", "document_type", "document_destination",
    "document_source_outbox", "office", "region", "time_required", "user_account", "external_documents",
    "custom_action_officer", "customview_docdetails_origin", "customview_doc_link", "test_doc",
    "inbox_received", "inbox_action_taken", "personal_group", "document_action_required_days"]

  lemma NamesDistinct()
    ensures forall i, j :: 0 <= i < j < |NAMES| ==> NAMES[i] != NAMES[j]
  {
  }

  /** The nineteen initial tables have distinct names. */
  lemma InitialNamesDistinct()
    ensures |INITIAL| == 19 && DistinctNames(INITIAL)
  {
    assert forall i :: 0 <= i < |INITIAL| ==> INITIAL[i].tableName == NAMES[i];
    NamesDistinct();
  }

  /** The same table names as INITIAL, in the same order. */
  predicate SameNames(ts: seq<TablePermission>) {
    |ts| == |INITIAL| && forall i :: 0 <= i < |ts| ==> ts[i].tableName == INITIAL[i].tableName
  }

  predicate AllHave(ts: seq<TablePermission>, k: Kind) {
    forall i :: 0 <= i < |ts| ==> ts[i].permissions.Has(k)
  }

  /** The select-all row the effect derives: a kind is ticked when the list is
      non-empty and every table has it. */
  function Derived(ts: seq<TablePermission>): (r: Permission)
    ensures forall k :: r.Has(k) <==> |ts| > 0 && AllHave(ts, k)
  {
    Permission(
      |ts| > 0 && AllHave(ts, AddCopy), |ts| > 0 && AllHave(ts, Delete),
      |ts| > 0 && AllHave(ts, Edit), |ts| > 0 && AllHave(ts, ListSearchView))
  }

  /** permissionsMap after the forEach over the first |ts| tables: each name
      mapped to the permissions of its last table. */
  function PermissionsMap(ts: seq<TablePermission>): (m: map<string, Permission>)
    ensures m.Keys == set i | 0 <= i < |ts| :: ts[i].tableName
    ensures DistinctNames(ts) ==> forall i :: 0 <= i < |ts| ==> m[ts[i].tableName] == ts[i].permissions
  {
    if ts == [] then map[]
    else
      var n := |ts| - 1;
      var init := ts[..n];
      assert forall i :: 0 <= i < n ==> init[i] == ts[i];
      PermissionsMap(init)[ts[n].tableName := ts[n].permissions]
  }

  /** With distinct names the map has one entry per table. */
  lemma {:induction false} PermissionsMapSize(ts: seq<TablePermission>)
    requires DistinctNames(ts)
    ensures |PermissionsMap(ts).Keys| == |ts|
  {
    if ts != [] {
      var n := |ts| - 1;
      var init := ts[..n];
      assert forall i :: 0 <= i < n ==> init[i] == ts[i];
      assert DistinctNames(init);
      PermissionsMapSize(init);
      var m0 := PermissionsMap(init);
      assert PermissionsMap(ts) == m0[ts[n].tableName := ts[n].permissions];
      assert ts[n].tableName !in m0;
      assert PermissionsMap(ts).Keys == m0.Keys + {ts[n].tableName};
    }
  }

  class PermissionsModal {
    var tables: seq<TablePermission>
    var selectAll: Permission

    /** No handler renames, adds or drops a table. */
    ghost predicate Valid()
      reads this
    {
      SameNames(tables)
    }

    constructor()
      ensures Valid()
      ensures tables == INITIAL && selectAll == NONE
    {
      tables := INITIAL;
      selectAll := NONE;
    }

    /** The effect on every tables change. */
    method Derive()
      modifies this
      ensures tables == old(tables) && selectAll == Derived(tables)
    {
      selectAll := Derived(tables);
    }

    /** handlePermissionChange: only the named kind of the named table moves. */
    method PermissionChange(name: string, k: Kind, value: bool)
      requires Valid()
      modifies this
      ensures Valid()
      ensures |tables| == |old(tables)|
      ensures forall i :: 0 <= i < |tables| ==>
        tables[i] == if old(tables)[i].tableName == name
          then old(tables)[i].(permissions := old(tables)[i].permissions.With(k, value))
          else old(tables)[i]
      ensures selectAll == Derived(tables)
    {
      var ts := tables;
      tables := seq(|ts|, i requires 0 <= i < |ts| =>
        if ts[i].tableName == name then ts[i].(permissions := ts[i].permissions.With(k, value)) else ts[i]);
      Derive();
    }

    /** handleSelectAll: one kind set to value in every table, the other kinds
        kept; the tick box shows value, which is also what the effect derives. */
    method SelectAll(k: Kind, value: bool)
      requires Valid()
      modifies this
      ensures Valid()
      ensures |tables| == |old(tables)|
      ensures forall i :: 0 <= i < |tables| ==>
        tables[i] == old(tables)[i].(permissions := old(tables)[i].permissions.With(k, value))
      ensures forall i, j :: 0 <= i < |tables| && j != k ==> tables[i].permissions.Has(j) == old(tables)[i].permissions.Has(j)
      ensures selectAll.Has(k) == value
      ensures selectAll == Derived(tables)
    {
      var ts := tables;
      tables := seq(|ts|, i requires 0 <= i < |ts| => ts[i].(permissions := ts[i].permissions.With(k, value)));
      selectAll := selectAll.With(k, value);
      assert AllHave(tables, k) == value by {
        assert tables[0].permissions.Has(k) == value;
      }
      Derive();
    }

    /** handleUpdate: the forEach filling permissionsMap. */
    method Update() returns (m: map<string, Permission>)
      requires Valid()
      ensures m == PermissionsMap(tables)
      ensures |m.Keys| == |INITIAL|
      ensures forall i :: 0 <= i < |tables| ==> tables[i].tableName in m && m[tables[i].tableName] == tables[i].permissions
    {
      m := map[];
      var i := 0;
      while i < |tables|
        invariant 0 <= i <= |tables|
        invariant m == PermissionsMap(tables[..i])
      {
        assert tables[..i + 1][..i] == tables[..i];
        m := m[tables[i].tableName := tables[i].permissions];
        i := i + 1;
      }
      assert tables[..i] == tables;
      InitialNamesDistinct();
      assert DistinctNames(tables);
      PermissionsMapSize(tables);
    }

    /** handleClose: back to the initial tables. */
    method Close()
      modifies this
      ensures Valid()
      ensures tables == INITIAL && selectAll == Derived(INITIAL)
    {
      tables := INITIAL;
      Derive();
    }
  }

  /** The initial tables tick no select-all box: several tables start with no
      permission at all. */
  lemma InitialSelectsNothing()
    ensures Derived(INITIAL) == NONE
  {
    assert !INITIAL[0].permissions.Has(AddCopy);
    assert !INITIAL[0].permissions.Has(Delete);
    assert !INITIAL[0].permissions.Has(Edit);
    assert !INITIAL[0].permissions.Has(ListSearchView);
  }
}
