/**
 * src/permission_manager.py: finding a permission by principal and role,
 * inverting an audit log into rollback actions, and applying a sheet of
 * ADD / REMOVE / MODIFY actions and download restrictions to the Drive while
 * recording one audit entry per action.
 */
module PermissionManager {
  import opened Wrappers
  import opened Text
  import opened Sorting
  import opened Config
  import opened Drive
  import opened Rows
  import opened ReportGenerator

  /** The root id process_changes reports when it could not find one. */
  const NoRootId: string := "N/A_RootID_FromProcess"

  // ================================================================ role lookup

  /** REVERSE_ROLE_MAP.get(cell.strip().title()) */
  function ApiRoleFor(cell: string): (r: Option<string>)
    ensures r.Some? <==> Title(Strip(cell)) in ReverseRoleMap
    ensures r.Some? ==> r.value in RoleMap && RoleMap[r.value] == Title(Strip(cell))
  {
    var u := Title(Strip(cell));
    if u in ReverseRoleMap then
      ForwardAfterReverse(u);
      Some(ReverseRoleMap[u])
    else None
  }

  /** A UI name written in any case, with any surrounding white space, finds its API role. */
  lemma ApiRoleForIgnoresCaseAndSpaces(cell: string, u: string)
    requires u in ReverseRoleMap && Lower(Strip(cell)) == Lower(u)
    ensures ApiRoleFor(cell) == Some(ReverseRoleMap[u])
  {
    TitleIgnoresCase(Strip(cell), u);
    UiNameIsTitled(u);
  }

  /** The Role cell the report writes for a known role resolves back to that role. */
  lemma ApiRoleForReportCell(role: string)
    requires role in RoleMap
    ensures ApiRoleFor(RoleCell(role)) == Some(role)
  {
    var u := RoleCell(role);
    UiNameIsTitled(u);
  }

  /** A blank cell, or any text that is not a UI name in some case and spacing, has no API role. */
  lemma ApiRoleForOthers(cell: string)
    requires forall u :: u in ReverseRoleMap ==> Lower(Strip(cell)) != Lower(u)
    ensures ApiRoleFor(cell).None?
  {
    LowerOfTitle(Strip(cell));
  }

  // ================================================================ _find_permission_id

  /** The address a permission is compared on: emailAddress for users and groups, domain otherwise. */
  function AddressOf(p: Permission): string {
    if p.kind in ["user", "group"] then p.emailAddress else p.domain
  }

  predicate Matches(p: Permission, kind: string, address: string, role: string) {
    p.kind == kind && Lower(AddressOf(p)) == Lower(address) && p.role == role
  }

  /** The position of the first matching permission, from position k on. */
  function FirstMatch(ps: seq<Permission>, kind: string, address: string, role: string, k: nat): (r: Option<nat>)
    requires k <= |ps|
    ensures r.Some? ==> k <= r.value < |ps| && Matches(ps[r.value], kind, address, role)
                        && forall j :: k <= j < r.value ==> !Matches(ps[j], kind, address, role)
    ensures r.None? ==> forall j :: k <= j < |ps| ==> !Matches(ps[j], kind, address, role)
    decreases |ps| - k
  {
    if k == |ps| then None
    else if Matches(ps[k], kind, address, role) then Some(k)
    else FirstMatch(ps, kind, address, role, k + 1)
  }

  /**
   * _find_permission_id: one listing request; the id of the first permission
   * with that type, role and address (ignoring case), or None when there is
   * none or the listing failed.
   */
  function FindPermission(s: DriveState, fileId: string, kind: string, address: string, role: string): (r: (DriveState, Option<string>))
    ensures r.0 == ListPermissions(s, fileId).0 && SameContents(r.0, s) && r.0.calls == s.calls + 1
    ensures r.1.Some? <==> ListPermissions(s, fileId).1.Done? && FirstMatch(PermsOf(s, fileId), kind, address, role, 0).Some?
    ensures r.1.Some? ==> r.1.value == PermsOf(s, fileId)[FirstMatch(PermsOf(s, fileId), kind, address, role, 0).value].id
  {
    var (t, reply) := ListPermissions(s, fileId);
    match reply
    case Failed(_) => (t, None)
    case Done(ps) =>
      match FirstMatch(ps, kind, address, role, 0)
      case None => (t, None)
      case Some(k) => (t, Some(ps[k].id))
  }

  method FindPermissionId(svc: DriveService, fileId: string, kind: string, address: string, role: string) returns (pid: Option<string>)
    modifies svc
    ensures (svc.state, pid) == FindPermission(old(svc.state), fileId, kind, address, role)
  {
    var reply := svc.ListPerms(fileId);
    pid := None;
    if reply.Done? {
      var ps := reply.value;
      var k := 0;
      while k < |ps|
        invariant k <= |ps|
        invariant FirstMatch(ps, kind, address, role, 0) == FirstMatch(ps, kind, address, role, k)
      {
        if Matches(ps[k], kind, address, role) {
          return Some(ps[k].id);
        }
        k := k + 1;
      }
    }
  }

  // ================================================================ generate_rollback_actions

  /** The Item Name and Full Path the live report gives an item. */
  datatype ItemInfo = ItemInfo(name: string, path: string)

  /** item_metadata_map over the first n report rows: a later row for the same item wins. */
  function Metadata(live: seq<Row>, n: nat): (m: map<string, ItemInfo>)
    requires n <= |live|
    ensures forall k :: 0 <= k < n ==> Get(live[k], "Item ID") in m
  {
    if n == 0 then map[]
    else
      var row := live[n - 1];
      Metadata(live, n - 1)[Get(row, "Item ID") := ItemInfo(Get(row, "Item Name"), Get(row, "Full Path"))]
  }

  /** The twelve columns of a rollback action. */
  const RollbackColumns: set<string> := {"Item ID", "Full Path", "Item Name", "Role", "Principal Type", "Email Address",
                                         "Action_Type", "New_Role", "Type (for ADD)", "Email/Domain (for ADD)",
                                         "Restrict Download", "Root Folder ID"}

  /** The rollback row before the command-specific update: every field blank but the item and the root. */
  function RollbackBase(itemId: string, info: ItemInfo, root: string): (b: Row)
    ensures b.Keys == RollbackColumns
    ensures b["Item ID"] == itemId && b["Item Name"] == info.name && b["Full Path"] == info.path && b["Root Folder ID"] == root
  {
    map[
      "Item ID" := itemId, "Full Path" := info.path, "Item Name" := info.name,
      "Role" := "", "Principal Type" := "", "Email Address" := "", "Action_Type" := "", "New_Role" := "",
      "Type (for ADD)" := "", "Email/Domain (for ADD)" := "", "Restrict Download" := "", "Root Folder ID" := root
    ]
  }

  predicate Invertible(cmd: string) {
    cmd in ["ADD", "REMOVE", "MODIFY", "SET_DOWNLOAD_RESTRICTION"]
  }

  /** The action that undoes one successful audit entry, or None for a command that has no inverse. */
  function RollbackOf(e: Row, meta: map<string, ItemInfo>, root: string): (a: Option<Row>)
    ensures a.Some? <==> Invertible(Get(e, "Action_Command"))
  {
    var itemId := Get(e, "Item ID");
    var info := if itemId in meta then meta[itemId] else ItemInfo("N/A", "N/A");
    var base := RollbackBase(itemId, info, root);
    var cmd := Get(e, "Action_Command");
    if cmd == "ADD" then
      Some(base["Action_Type" := "REMOVE"]["Principal Type" := Get(e, "New_Principal_Type")]
               ["Email Address" := Get(e, "New_Email_Address")]["Role" := Get(e, "New_Role")])
    else if cmd == "REMOVE" then
      Some(base["Action_Type" := "ADD"]["New_Role" := Get(e, "Original_Role")]
               ["Type (for ADD)" := Get(e, "Original_Principal_Type")]["Email/Domain (for ADD)" := Get(e, "Original_Email_Address")])
    else if cmd == "MODIFY" then
      Some(base["Action_Type" := "MODIFY"]["Principal Type" := Get(e, "Original_Principal_Type")]
               ["Email Address" := Get(e, "Original_Email_Address")]["Role" := Get(e, "New_Role")]["New_Role" := Get(e, "Original_Role")])
    else if cmd == "SET_DOWNLOAD_RESTRICTION" then
      Some(base["Restrict Download" := Get(e, "Original_Role")])
    else None
  }

  /** The rollback actions of the first n log entries: successful entries with an inverse, in log order. */
  function RollbackList(log: seq<Row>, n: nat, meta: map<string, ItemInfo>, root: string): (actions: seq<Row>)
    requires n <= |log|
    ensures |actions| <= n
  {
    if n == 0 then []
    else
      var e := log[n - 1];
      var rest := RollbackList(log, n - 1, meta, root);
      if Get(e, "Status") == "SUCCESS" && RollbackOf(e, meta, root).Some? then rest + [RollbackOf(e, meta, root).value] else rest
  }

  /** Every rollback action has the twelve columns and carries the root id it was given. */
  lemma {:induction false} RollbackListRoot(log: seq<Row>, n: nat, meta: map<string, ItemInfo>, root: string)
    requires n <= |log|
    ensures forall a :: a in RollbackList(log, n, meta, root) ==> a.Keys == RollbackColumns && a["Root Folder ID"] == root
  {
    if n > 0 {
      RollbackListRoot(log, n - 1, meta, root);
      var e := log[n - 1];
      var rest := RollbackList(log, n - 1, meta, root);
      if Get(e, "Status") == "SUCCESS" && RollbackOf(e, meta, root).Some? {
        RollbackColumnsPresent(e, meta, root);
        var x := RollbackOf(e, meta, root).value;
        assert RollbackList(log, n, meta, root) == rest + [x];
        forall a | a in rest + [x]
          ensures a.Keys == RollbackColumns && a["Root Folder ID"] == root
        {
          if a != x {
            assert a in rest;
          }
        }
      } else {
        assert RollbackList(log, n, meta, root) == rest;
      }
    }
  }

  predicate HasSuccess(log: seq<Row>) {
    exists e :: e in log && Get(e, "Status") == "SUCCESS"
  }

  /** Every live report row carries the three columns item_metadata_map reads. */
  predicate DescribesItems(live: seq<Row>) {
    forall r :: r in live ==> "Item ID" in r && "Item Name" in r && "Full Path" in r
  }

  /**
   * The column one row of the comprehension finds missing first: the key
   * item['Item ID'] is read before the value's item['Item Name'] and
   * item['Full Path'].
   */
  function FirstMissingKey(row: Row): (r: Option<string>)
    ensures r.None? <==> "Item ID" in row && "Item Name" in row && "Full Path" in row
    ensures r.Some? ==> r.value !in row
    ensures r == Some("Item Name") ==> "Item ID" in row
    ensures r == Some("Full Path") ==> "Item ID" in row && "Item Name" in row
    ensures r.Some? ==> r.value == "Item ID" || r.value == "Item Name" || r.value == "Full Path"
  {
    if "Item ID" !in row then Some("Item ID")
    else if "Item Name" !in row then Some("Item Name")
    else if "Full Path" !in row then Some("Full Path")
    else None
  }

  /** The column whose KeyError the comprehension over the live report raises, if any. */
  function MissingDescription(live: seq<Row>): (r: Option<string>)
    ensures r.None? <==> DescribesItems(live)
    ensures r.Some? ==> r.value == "Item ID" || r.value == "Item Name" || r.value == "Full Path"
  {
    if live == [] then None
    else
      assert forall x :: x in live <==> x == live[0] || x in live[1..];
      if FirstMissingKey(live[0]).Some? then FirstMissingKey(live[0]) else MissingDescription(live[1..])
  }

  /** The KeyError is that of the first incomplete row, for the first of its missing columns. */
  lemma {:induction false} MissingDescriptionAt(live: seq<Row>, k: nat)
    requires k < |live| && DescribesItems(live[..k]) && FirstMissingKey(live[k]).Some?
    ensures MissingDescription(live) == FirstMissingKey(live[k])
  {
    if k > 0 {
      assert live[0] in live[..k];
      assert live[1..][..k - 1] == live[..k][1..];
      assert forall x :: x in live[..k][1..] ==> x in live[..k];
      MissingDescriptionAt(live[1..], k - 1);
    }
  }

  /** The audit-log columns a successful entry can be read through. */
  const LogColumns: set<string> := {"Item ID", "Action_Command", "New_Principal_Type", "New_Email_Address", "New_Role",
                                    "Original_Role", "Original_Principal_Type", "Original_Email_Address"}

  /**
   * The columns one successful entry is read through, in order: Item ID and
   * Action_Command, then those its command's update reads, in the order
   * the update's dict literal lists them.
   */
  function EntryColumns(cmd: string): (cols: seq<string>)
    ensures |cols| >= 2 && cols[0] == "Item ID" && cols[1] == "Action_Command"
    ensures forall i :: 0 <= i < |cols| ==> cols[i] in LogColumns
    ensures !Invertible(cmd) ==> |cols| == 2
  {
    ["Item ID", "Action_Command"]
      + (if cmd == "ADD" then ["New_Principal_Type", "New_Email_Address", "New_Role"]
         else if cmd == "REMOVE" then ["Original_Role", "Original_Principal_Type", "Original_Email_Address"]
         else if cmd == "MODIFY" then ["Original_Principal_Type", "Original_Email_Address", "New_Role", "Original_Role"]
         else if cmd == "SET_DOWNLOAD_RESTRICTION" then ["Original_Role"]
         else [])
  }

  /** The first of cols the entry lacks: the KeyError reading them in order stops at. */
  function FirstAbsent(e: Row, cols: seq<string>): (r: Option<string>)
    ensures r.None? <==> forall i :: 0 <= i < |cols| ==> cols[i] in e
    ensures r.Some? ==> r.value in cols && r.value !in e
  {
    if cols == [] then None
    else if cols[0] !in e then Some(cols[0])
    else
      assert forall i :: 1 <= i < |cols| ==> cols[i] == cols[1..][i - 1];
      FirstAbsent(e, cols[1..])
  }

  /** The column found is preceded in cols only by columns the entry has. */
  lemma {:induction false} FirstAbsentFirst(e: Row, cols: seq<string>, i: nat)
    requires i < |cols| && cols[i] !in e
    ensures FirstAbsent(e, cols).Some?
    ensures exists k :: 0 <= k <= i && cols[k] == FirstAbsent(e, cols).value && forall j :: 0 <= j < k ==> cols[j] in e
  {
    if cols[0] in e {
      FirstAbsentFirst(e, cols[1..], i - 1);
      var k :| 0 <= k <= i - 1 && cols[1..][k] == FirstAbsent(e, cols[1..]).value &&
               forall j :: 0 <= j < k ==> cols[1..][j] in e;
      assert cols[k + 1] == FirstAbsent(e, cols).value;
      assert forall j :: 0 <= j < k + 1 ==> cols[j] in e by {
        forall j | 0 <= j < k + 1 ensures cols[j] in e {
          if j > 0 {
            assert cols[j] == cols[1..][j - 1];
          }
        }
      }
    }
  }

  /** The column whose KeyError reading one log entry raises: none for an entry that is not successful. */
  function EntryMissing(e: Row): (r: Option<string>)
    ensures r.Some? ==> Get(e, "Status") == "SUCCESS" && r.value in LogColumns && r.value !in e
    ensures Get(e, "Status") == "SUCCESS" && LogColumns <= e.Keys ==> r.None?
  {
    if Get(e, "Status") != "SUCCESS" then None else FirstAbsent(e, EntryColumns(Get(e, "Action_Command")))
  }

  /** The error each log entry raises when the loop reads it. */
  function EntryErrors(log: seq<Row>): (xs: seq<Option<string>>)
    ensures |xs| == |log|
  {
    if log == [] then [] else [EntryMissing(log[0])] + EntryErrors(log[1..])
  }

  /** Entry k's error is the one reading entry k raises. */
  lemma {:induction false} EntryErrorsAt(log: seq<Row>, k: nat)
    requires k < |log|
    ensures EntryErrors(log)[k] == EntryMissing(log[k])
  {
    if k > 0 {
      EntryErrorsAt(log[1..], k - 1);
    }
  }

  /** The first error among the first n: the loop stops at the first entry that raises. */
  function FirstError(xs: seq<Option<string>>, n: nat): (r: Option<string>)
    requires n <= |xs|
    ensures r.Some? ==> r in xs[..n]
  {
    if n == 0 then None
    else if FirstError(xs, n - 1).Some? then
      assert forall x :: x in xs[..n - 1] ==> x in xs[..n];
      FirstError(xs, n - 1)
    else
      assert xs[n - 1] == xs[..n][n - 1];
      xs[n - 1]
  }

  /** No error among the first n exactly when none of them raises. */
  lemma {:induction false} FirstErrorNone(xs: seq<Option<string>>, n: nat)
    requires n <= |xs|
    ensures FirstError(xs, n).None? <==> forall k :: 0 <= k < n ==> xs[k].None?
  {
    if n > 0 {
      FirstErrorNone(xs, n - 1);
    }
  }

  /** Once an error is found, later entries do not change it. */
  lemma {:induction false} FirstErrorKeeps(xs: seq<Option<string>>, m: nat, n: nat)
    requires m <= n <= |xs| && FirstError(xs, m).Some?
    ensures FirstError(xs, n) == FirstError(xs, m)
  {
    if n > m {
      FirstErrorKeeps(xs, m, n - 1);
    }
  }

  /** The error found is that of the first entry that raises one. */
  lemma FirstErrorAt(xs: seq<Option<string>>, k: nat)
    requires k < |xs| && xs[k].Some?
    requires forall j :: 0 <= j < k ==> xs[j].None?
    ensures FirstError(xs, |xs|) == xs[k]
  {
    FirstErrorNone(xs, k);
    FirstErrorKeeps(xs, k + 1, |xs|);
  }

  /** The column whose KeyError the loop over the log raises: that of the first entry that raises one. */
  function LogMissing(log: seq<Row>): (r: Option<string>)
    ensures r.Some? ==> r.value in LogColumns
  {
    var xs := EntryErrors(log);
    var r := FirstError(xs, |xs|);
    if r.Some? then
      assert xs[..|xs|] == xs;
      var k :| 0 <= k < |xs| && xs[k] == r;
      EntryErrorsAt(log, k);
      r
    else r
  }

  /** The loop raises the KeyError of the first successful entry that lacks a column it reads. */
  lemma LogMissingAt(log: seq<Row>, k: nat)
    requires k < |log| && EntryMissing(log[k]).Some?
    requires forall j :: 0 <= j < k ==> EntryMissing(log[j]).None?
    ensures LogMissing(log) == EntryMissing(log[k])
  {
    forall j | 0 <= j <= k
      ensures EntryErrors(log)[j] == EntryMissing(log[j])
    {
      EntryErrorsAt(log, j);
    }
    FirstErrorAt(EntryErrors(log), k);
  }

  /** A log every entry of which has the columns the loop reads raises no KeyError. */
  lemma LogComplete(log: seq<Row>)
    requires forall e :: e in log ==> LogColumns <= e.Keys
    ensures LogMissing(log).None?
  {
    var xs := EntryErrors(log);
    forall k | 0 <= k < |log|
      ensures xs[k].None?
    {
      assert log[k] in log;
      EntryErrorsAt(log, k);
    }
    FirstErrorNone(xs, |xs|);
  }

  /** A log with a successful entry but no Action_Command column stops with that KeyError, even for an empty report. */
  lemma RollbackMissingCommand()
    ensures var entry := map["Root Folder ID" := "r", "Status" := "SUCCESS", "Item ID" := "f"];
            RollbackActions(Some([entry]), []) == Raised(KeyError("Action_Command"))
  {
    var entry := map["Root Folder ID" := "r", "Status" := "SUCCESS", "Item ID" := "f"];
    assert entry in [entry] && "Status" in entry;
    assert HasColumn([entry], "Status") && HasSuccess([entry]);
    assert EntryMissing(entry) == Some("Action_Command");
  }

  /** The columns whose KeyError generate_rollback_actions can raise: those of the live report, then those of the log. */
  const RaisedColumns: set<string> := LogColumns + {"Item Name", "Full Path", "Root Folder ID"}

  /**
   * generate_rollback_actions(log, live): [] when the log cannot be read, has
   * no Status column or no successful entry; the KeyError of the first
   * column the live report lacks (MissingDescription, then Root Folder ID of
   * the first row); then the KeyError of the first column a successful
   * entry lacks (LogMissing); the inverse actions otherwise.
   */
  function RollbackActions(log: Option<seq<Row>>, live: seq<Row>): (r: Run<seq<Row>>)
    ensures log.None? ==> r == Returned([])
    ensures log.Some? && (!HasColumn(log.value, "Status") || !HasSuccess(log.value)) ==> r == Returned([])
    ensures log.Some? && HasColumn(log.value, "Status") && HasSuccess(log.value) && MissingDescription(live).Some? ==>
              r == Raised(KeyError(MissingDescription(live).value))
    ensures log.Some? && HasColumn(log.value, "Status") && HasSuccess(log.value) && MissingDescription(live).None? &&
            (live == [] || "Root Folder ID" in live[0]) ==>
              (r.Raised? <==> LogMissing(log.value).Some?) &&
              (r.Raised? ==> r.exception == KeyError(LogMissing(log.value).value))
    ensures r.Raised? ==> exists c :: c in RaisedColumns && r.exception == KeyError(c)
    ensures r.Returned? && log.Some? ==> |r.value| <= |log.value|
  {
    match log
    case None => Returned([])
    case Some(entries) =>
      if !HasColumn(entries, "Status") || !HasSuccess(entries) then Returned([])
      else if MissingDescription(live).Some? then Raised(KeyError(MissingDescription(live).value))
      else if live != [] && "Root Folder ID" !in live[0] then Raised(KeyError("Root Folder ID"))
      else
        var root := if live == [] then "" else live[0]["Root Folder ID"];
        InvertEntries(entries, Metadata(live, |live|), root)
  }

  /** The loop over the log: the KeyError of the first entry that raises one, else the inverse actions. */
  function InvertEntries(entries: seq<Row>, meta: map<string, ItemInfo>, root: string): (r: Run<seq<Row>>)
    ensures r.Raised? <==> LogMissing(entries).Some?
    ensures r.Raised? ==> r.exception == KeyError(LogMissing(entries).value)
    ensures r.Returned? ==> |r.value| <= |entries|
  {
    if LogMissing(entries).Some? then Raised(KeyError(LogMissing(entries).value))
    else Returned(RollbackList(entries, |entries|, meta, root))
  }

  method GenerateRollbackActions(log: Option<seq<Row>>, live: seq<Row>) returns (r: Run<seq<Row>>)
    ensures r == RollbackActions(log, live)
  {
    if log.None? {
      return Returned([]);
    }
    var entries := log.value;
    if !HasColumn(entries, "Status") || !HasSuccess(entries) {
      return Returned([]);
    }
    var missing := MissingDescription(live);
    if missing.Some? {
      return Raised(KeyError(missing.value));
    }
    if live != [] && "Root Folder ID" !in live[0] {
      return Raised(KeyError("Root Folder ID"));
    }
    var meta := Metadata(live, |live|);
    var root := if live == [] then "" else live[0]["Root Folder ID"];
    r := InvertLog(entries, meta, root);
  }

  /** Lines 41-72: the loop over the successful entries. */
  method InvertLog(entries: seq<Row>, meta: map<string, ItemInfo>, root: string) returns (r: Run<seq<Row>>)
    ensures r == InvertEntries(entries, meta, root)
  {
    ghost var xs := EntryErrors(entries);
    var actions := [];
    var n := 0;
    while n < |entries|
      invariant n <= |entries|
      invariant FirstError(xs, n).None?
      invariant actions == RollbackList(entries, n, meta, root)
    {
      var e := entries[n];
      var absent := EntryMissing(e);
      EntryErrorsAt(entries, n);
      if absent.Some? {
        FirstErrorKeeps(xs, n + 1, |entries|);
        return Raised(KeyError(absent.value));
      }
      if Get(e, "Status") == "SUCCESS" {
        var a := RollbackOf(e, meta, root);
        if a.Some? {
          actions := actions + [a.value];
        }
      }
      n := n + 1;
    }
    return Returned(actions);
  }

  /** An ADD is undone by a REMOVE of the principal and role it added. */
  lemma RollbackOfAdd(e: Row, meta: map<string, ItemInfo>, root: string)
    requires Get(e, "Action_Command") == "ADD"
    ensures var a := RollbackOf(e, meta, root).value;
            && a["Action_Type"] == "REMOVE" && a["Item ID"] == Get(e, "Item ID")
            && a["Principal Type"] == Get(e, "New_Principal_Type") && a["Email Address"] == Get(e, "New_Email_Address")
            && a["Role"] == Get(e, "New_Role")
  {
  }

  /** A REMOVE is undone by an ADD of the principal and role it removed. */
  lemma RollbackOfRemove(e: Row, meta: map<string, ItemInfo>, root: string)
    requires Get(e, "Action_Command") == "REMOVE"
    ensures var a := RollbackOf(e, meta, root).value;
            && a["Action_Type"] == "ADD" && a["Item ID"] == Get(e, "Item ID")
            && a["Type (for ADD)"] == Get(e, "Original_Principal_Type") && a["Email/Domain (for ADD)"] == Get(e, "Original_Email_Address")
            && a["New_Role"] == Get(e, "Original_Role")
  {
  }

  /** A MODIFY is undone by a MODIFY of the same principal with the two roles swapped. */
  lemma RollbackOfModify(e: Row, meta: map<string, ItemInfo>, root: string)
    requires Get(e, "Action_Command") == "MODIFY"
    ensures var a := RollbackOf(e, meta, root).value;
            && a["Action_Type"] == "MODIFY" && a["Item ID"] == Get(e, "Item ID")
            && a["Principal Type"] == Get(e, "Original_Principal_Type") && a["Email Address"] == Get(e, "Original_Email_Address")
            && a["Role"] == Get(e, "New_Role") && a["New_Role"] == Get(e, "Original_Role")
  {
  }

  /** A download-restriction change is undone by restoring the value it replaced; the row has no command. */
  lemma RollbackOfRestriction(e: Row, meta: map<string, ItemInfo>, root: string)
    requires Get(e, "Action_Command") == "SET_DOWNLOAD_RESTRICTION"
    ensures var a := RollbackOf(e, meta, root).value;
            && a["Action_Type"] == "" && a["Item ID"] == Get(e, "Item ID")
            && a["Restrict Download"] == Get(e, "Original_Role")
  {
  }

  /** Every rollback action carries all twelve columns, the item's metadata and the root. */
  lemma RollbackColumnsPresent(e: Row, meta: map<string, ItemInfo>, root: string)
    requires RollbackOf(e, meta, root).Some?
    ensures var a := RollbackOf(e, meta, root).value;
            && a.Keys == RollbackColumns
            && a["Root Folder ID"] == root
            && a["Item Name"] == (if Get(e, "Item ID") in meta then meta[Get(e, "Item ID")].name else "N/A")
            && a["Full Path"] == (if Get(e, "Item ID") in meta then meta[Get(e, "Item ID")].path else "N/A")
  {
    var itemId := Get(e, "Item ID");
    var info := if itemId in meta then meta[itemId] else ItemInfo("N/A", "N/A");
    var base := RollbackBase(itemId, info, root);
    var cmd := Get(e, "Action_Command");
    if cmd == "ADD" {
      var b1 := base["Action_Type" := "REMOVE"];
      var b2 := b1["Principal Type" := Get(e, "New_Principal_Type")];
      var b3 := b2["Email Address" := Get(e, "New_Email_Address")];
      SetColumn(base, "Action_Type", "REMOVE");
      SetColumn(b1, "Principal Type", Get(e, "New_Principal_Type"));
      SetColumn(b2, "Email Address", Get(e, "New_Email_Address"));
      SetColumn(b3, "Role", Get(e, "New_Role"));
    } else if cmd == "REMOVE" {
      var b1 := base["Action_Type" := "ADD"];
      var b2 := b1["New_Role" := Get(e, "Original_Role")];
      var b3 := b2["Type (for ADD)" := Get(e, "Original_Principal_Type")];
      SetColumn(base, "Action_Type", "ADD");
      SetColumn(b1, "New_Role", Get(e, "Original_Role"));
      SetColumn(b2, "Type (for ADD)", Get(e, "Original_Principal_Type"));
      SetColumn(b3, "Email/Domain (for ADD)", Get(e, "Original_Email_Address"));
    } else if cmd == "MODIFY" {
      var b1 := base["Action_Type" := "MODIFY"];
      var b2 := b1["Principal Type" := Get(e, "Original_Principal_Type")];
      var b3 := b2["Email Address" := Get(e, "Original_Email_Address")];
      var b4 := b3["Role" := Get(e, "New_Role")];
      SetColumn(base, "Action_Type", "MODIFY");
      SetColumn(b1, "Principal Type", Get(e, "Original_Principal_Type"));
      SetColumn(b2, "Email Address", Get(e, "Original_Email_Address"));
      SetColumn(b3, "Role", Get(e, "New_Role"));
      SetColumn(b4, "New_Role", Get(e, "Original_Role"));
    } else {
      SetColumn(base, "Restrict Download", Get(e, "Original_Role"));
    }
  }

  /** Setting a column other than the root and the item name keeps the twelve columns, the root and the name. */
  lemma SetColumn(b: Row, k: string, v: string)
    requires b.Keys == RollbackColumns && k in RollbackColumns && k != "Root Folder ID" && k != "Item Name"
    ensures b[k := v].Keys == RollbackColumns && b[k := v]["Root Folder ID"] == b["Root Folder ID"] && b[k := v]["Item Name"] == b["Item Name"]
  {
  }

  /** The positions, in increasing order, of the first n log entries that rollback inverts. */
  function Selected(log: seq<Row>, n: nat): (ix: seq<nat>)
    requires n <= |log|
  {
    if n == 0 then []
    else if Get(log[n - 1], "Status") == "SUCCESS" && Invertible(Get(log[n - 1], "Action_Command")) then Selected(log, n - 1) + [n - 1]
    else Selected(log, n - 1)
  }

  /** The selected positions are below n and strictly increasing, so in log order without repeats. */
  lemma {:induction false} SelectedOrdered(log: seq<Row>, n: nat)
    requires n <= |log|
    ensures forall k :: 0 <= k < |Selected(log, n)| ==> Selected(log, n)[k] < n
    ensures forall k, m :: 0 <= k < m < |Selected(log, n)| ==> Selected(log, n)[k] < Selected(log, n)[m]
  {
    if n > 0 {
      SelectedOrdered(log, n - 1);
      var sel := Selected(log, n - 1);
      if Get(log[n - 1], "Status") == "SUCCESS" && Invertible(Get(log[n - 1], "Action_Command")) {
        assert Selected(log, n) == sel + [n - 1];
      } else {
        assert Selected(log, n) == sel;
      }
    }
  }

  /** The selected positions are exactly the successful entries with an inverse. */
  lemma {:induction false} SelectedExactly(log: seq<Row>, n: nat)
    requires n <= |log|
    ensures forall i :: i in Selected(log, n) <==>
              0 <= i < n && Get(log[i], "Status") == "SUCCESS" && Invertible(Get(log[i], "Action_Command"))
  {
    if n > 0 {
      SelectedExactly(log, n - 1);
      var sel := Selected(log, n - 1);
      if Get(log[n - 1], "Status") == "SUCCESS" && Invertible(Get(log[n - 1], "Action_Command")) {
        assert Selected(log, n) == sel + [n - 1];
        forall i ensures i in sel + [n - 1] <==> i in sel || i == n - 1 { }
      } else {
        assert Selected(log, n) == sel;
      }
    }
  }

  /** The actions pair up with the positions, the k-th action undoing the log entry at the k-th position. */
  predicate UndoPairs(log: seq<Row>, meta: map<string, ItemInfo>, root: string, sel: seq<nat>, acts: seq<Row>) {
    |acts| == |sel| &&
    (sel != [] ==>
       && UndoPairs(log, meta, root, sel[..|sel| - 1], acts[..|acts| - 1])
       && sel[|sel| - 1] < |log| && RollbackOf(log[sel[|sel| - 1]], meta, root) == Some(acts[|acts| - 1]))
  }

  lemma UndoPairsSnoc(log: seq<Row>, meta: map<string, ItemInfo>, root: string, sel: seq<nat>, acts: seq<Row>, i: nat, x: Row)
    requires i < |log| && RollbackOf(log[i], meta, root) == Some(x)
    ensures UndoPairs(log, meta, root, sel, acts) ==> UndoPairs(log, meta, root, sel + [i], acts + [x])
  {
    assert (sel + [i])[..|sel|] == sel && (acts + [x])[..|acts|] == acts;
  }

  /** Read by index: the k-th action undoes the log entry at the k-th position. */
  lemma {:induction false} UndoPairsAt(log: seq<Row>, meta: map<string, ItemInfo>, root: string, sel: seq<nat>, acts: seq<Row>, k: nat)
    requires UndoPairs(log, meta, root, sel, acts) && k < |sel|
    ensures |acts| == |sel| && sel[k] < |log| && RollbackOf(log[sel[k]], meta, root) == Some(acts[k])
  {
    if k < |sel| - 1 {
      UndoPairsAt(log, meta, root, sel[..|sel| - 1], acts[..|acts| - 1], k);
    }
  }

  /** Rollback produces one action per selected entry, the k-th undoing the k-th selected entry. */
  lemma {:induction false} RollbackListSelects(log: seq<Row>, n: nat, meta: map<string, ItemInfo>, root: string)
    requires n <= |log|
    ensures UndoPairs(log, meta, root, Selected(log, n), RollbackList(log, n, meta, root))
  {
    if n > 0 {
      RollbackListSelects(log, n - 1, meta, root);
      RollbackListStep(log, n, meta, root);
    } else {
      assert Selected(log, n) == [] && RollbackList(log, n, meta, root) == [];
    }
  }

  /** One more log entry: both the positions and the actions grow by one, or neither does. */
  lemma RollbackListStep(log: seq<Row>, n: nat, meta: map<string, ItemInfo>, root: string)
    requires 0 < n <= |log|
    ensures UndoPairs(log, meta, root, Selected(log, n - 1), RollbackList(log, n - 1, meta, root)) ==>
              UndoPairs(log, meta, root, Selected(log, n), RollbackList(log, n, meta, root))
  {
    var e := log[n - 1];
    var sel, acts := Selected(log, n - 1), RollbackList(log, n - 1, meta, root);
    if Get(e, "Status") == "SUCCESS" && Invertible(Get(e, "Action_Command")) {
      var x := RollbackOf(e, meta, root).value;
      assert Selected(log, n) == sel + [n - 1];
      assert RollbackList(log, n, meta, root) == acts + [x];
      UndoPairsSnoc(log, meta, root, sel, acts, n - 1, x);
    } else {
      assert Selected(log, n) == sel;
      assert RollbackList(log, n, meta, root) == acts;
    }
  }

  // ================================================================ process_changes: audit trail

  /**
   * One audit-trail entry, the dict process_changes appends: an action row's
   * entry has all fourteen columns, a download-restriction change's only ten.
   */
  datatype AuditEntry =
    | ActionLog(timestamp: string, root: string, path: string, name: string, itemId: string, command: string,
                status: string, details: string, origType: string, origEmail: string, origRole: string,
                newType: string, newEmail: string, newRole: string)
    | RestrictLog(timestamp: string, root: string, path: string, name: string, itemId: string,
                  status: string, details: string, origRole: string, newRole: string)
  {
    /** The Action_Command column. */
    function ActionCommand(): string {
      if ActionLog? then command else "SET_DOWNLOAD_RESTRICTION"
    }

    /** The entry as a row of the audit log. */
    function ToRow(): Row {
      if ActionLog? then
        map["Timestamp" := timestamp, "Root Folder ID" := root, "Full Path" := path, "Item Name" := name,
            "Item ID" := itemId, "Action_Command" := command, "Status" := status, "Details" := details,
            "Original_Principal_Type" := origType, "Original_Email_Address" := origEmail, "Original_Role" := origRole,
            "New_Principal_Type" := newType, "New_Email_Address" := newEmail, "New_Role" := newRole]
      else
        map["Timestamp" := timestamp, "Root Folder ID" := root, "Full Path" := path, "Item Name" := name,
            "Item ID" := itemId, "Action_Command" := "SET_DOWNLOAD_RESTRICTION", "Status" := status, "Details" := details,
            "Original_Role" := origRole, "New_Role" := newRole]
    }
  }

  /** Reading the columns rollback uses back from a logged entry gives the entry's own fields. */
  lemma ToRowCells(e: AuditEntry)
    ensures var row := e.ToRow();
            && Get(row, "Item ID") == e.itemId && Get(row, "Action_Command") == e.ActionCommand()
            && Get(row, "Status") == e.status && Get(row, "Root Folder ID") == e.root
            && Get(row, "Original_Role") == e.origRole && Get(row, "New_Role") == e.newRole
            && (e.ActionLog? ==>
                  && Get(row, "Original_Principal_Type") == e.origType && Get(row, "Original_Email_Address") == e.origEmail
                  && Get(row, "New_Principal_Type") == e.newType && Get(row, "New_Email_Address") == e.newEmail)
            && (e.RestrictLog? ==> "Original_Principal_Type" !in row && "New_Principal_Type" !in row)
  {
  }

  // ================================================================ process_changes: input

  /** Where process_changes reads its actions from. */
  datatype Input =
    | ActionsList(actions: seq<Row>)     // actions_list
    | ExcelSheet(sheet: Option<seq<Row>>) // input_excel_path; None when the file cannot be read

  /** The action frame and the root id found in it, or None when an Excel input is unusable. */
  function ReadInput(input: Input): (r: Option<(seq<Row>, string)>)
    ensures input.ActionsList? ==> r.Some? && r.value.0 == Frame(input.actions)
    ensures input.ExcelSheet? ==>
              (r.Some? <==> input.sheet.Some? && HasColumn(Frame(input.sheet.value), "Root Folder ID") && Frame(input.sheet.value) != [])
    ensures input.ExcelSheet? && r.Some? ==> r.value.0 == Frame(input.sheet.value)
    ensures r.Some? ==> r.value.1 == if r.value.0 == [] then "" else Get(r.value.0[0], "Root Folder ID")
  {
    match input
    case ActionsList(actions) =>
      var df := Frame(actions);
      Some((df, if df == [] then "" else Get(df[0], "Root Folder ID")))
    case ExcelSheet(None) => None
    case ExcelSheet(Some(rows)) =>
      var df := Frame(rows);
      if !HasColumn(df, "Root Folder ID") || df == [] then None else Some((df, Get(df[0], "Root Folder ID")))
  }

  // ================================================================ process_changes: Restrict Download

  const RD: string := "Restrict Download"

  /** The non-blank Restrict Download cells of an item's first n rows, stripped and upper-cased. */
  function Restrictions(df: seq<Row>, id: string, n: nat): (rs: seq<string>)
    requires n <= |df|
    ensures |rs| <= n
    ensures forall k :: 0 <= k < |rs| ==> rs[k] != ""
  {
    if n == 0 then []
    else
      var row := df[n - 1];
      var rest := Restrictions(df, id, n - 1);
      if Get(row, "Item ID") == id && Strip(Get(row, RD)) != "" then rest + [Upper(Strip(Get(row, RD)))] else rest
  }

  /** The row belongs to the item and its Restrict Download cell reads v, ignoring case and surrounding spaces. */
  predicate SaysRestriction(row: Row, id: string, v: string) {
    Get(row, "Item ID") == id && Strip(Get(row, RD)) != "" && v == Upper(Strip(Get(row, RD)))
  }

  /** A value is among an item's restrictions exactly when one of its rows holds it, ignoring case and spaces. */
  lemma {:induction false} RestrictionsContents(df: seq<Row>, id: string, n: nat, v: string)
    requires n <= |df|
    ensures v in Restrictions(df, id, n) <==> exists k :: 0 <= k < n && SaysRestriction(df[k], id, v)
  {
    if n > 0 {
      RestrictionsContents(df, id, n - 1, v);
    }
  }

  /** The setting an item should have: TRUE if any of its rows says TRUE, else FALSE if any says FALSE. */
  function Desired(df: seq<Row>, id: string): (d: Option<string>)
    ensures d == Some("TRUE") <==> "TRUE" in Restrictions(df, id, |df|)
    ensures d == Some("FALSE") <==> "TRUE" !in Restrictions(df, id, |df|) && "FALSE" in Restrictions(df, id, |df|)
    ensures d.None? <==> "TRUE" !in Restrictions(df, id, |df|) && "FALSE" !in Restrictions(df, id, |df|)
  {
    var rs := Restrictions(df, id, |df|);
    if "TRUE" in rs then Some("TRUE") else if "FALSE" in rs then Some("FALSE") else None
  }

  /** The item ids of the frame in groupby order: distinct and sorted. */
  function GroupIds(df: seq<Row>): (ids: seq<string>)
    ensures StrictlySorted(ids)
    ensures forall id :: id in ids <==> exists k :: 0 <= k < |df| && Get(df[k], "Item ID") == id
  {
    var all := seq(|df|, k requires 0 <= k < |df| => Get(df[k], "Item ID"));
    forall id | id in all ensures exists k :: 0 <= k < |df| && Get(df[k], "Item ID") == id {
      var k :| 0 <= k < |all| && all[k] == id;
    }
    forall k | 0 <= k < |df| ensures Get(df[k], "Item ID") in all {
      assert all[k] == Get(df[k], "Item ID");
    }
    SortedDistinct(all)
  }

  /** desired_map, in insertion order: the ids among the first n that have a desired setting. */
  function DesiredMap(df: seq<Row>, ids: seq<string>, n: nat): (m: seq<(string, string)>)
    requires n <= |ids|
    ensures |m| <= n
    ensures forall k :: 0 <= k < |m| ==> m[k].0 in ids[..n] && (m[k].1 == "TRUE" || m[k].1 == "FALSE")
  {
    if n == 0 then []
    else
      match Desired(df, ids[n - 1])
      case None => DesiredMap(df, ids, n - 1)
      case Some(d) => DesiredMap(df, ids, n - 1) + [(ids[n - 1], d)]
  }

  /** desired_map pairs exactly the ids with a desired setting with that setting. */
  lemma {:induction false} DesiredMapContents(df: seq<Row>, ids: seq<string>, n: nat)
    requires n <= |ids|
    ensures forall id, d :: (id, d) in DesiredMap(df, ids, n) <==> id in ids[..n] && Desired(df, id) == Some(d)
  {
    if n > 0 {
      DesiredMapContents(df, ids, n - 1);
      assert ids[..n] == ids[..n - 1] + [ids[n - 1]];
    }
  }

  /** original_map.get(id, 'N/A'): the first report row of the item, a missing cell reading "nan". */
  function OriginalRestriction(report: seq<Row>, id: string): (v: string)
    ensures (forall r :: r in report ==> Get(r, "Item ID") != id || "Item ID" !in r) ==> v == "N/A"
  {
    if report == [] then "N/A"
    else if "Item ID" in report[0] && report[0]["Item ID"] == id then RawCell(report[0], RD)
    else OriginalRestriction(report[1..], id)
  }

  /** The first frame row of an item, as `df[df['Item ID'] == id].iloc[0]`. */
  function FirstRowOf(df: seq<Row>, id: string): Row {
    if df == [] then map[]
    else if Get(df[0], "Item ID") == id then df[0]
    else FirstRowOf(df[1..], id)
  }

  /** The audit entry of a download-restriction change. */
  function RestrictEntry(fileInfo: Row, id: string, original: string, desired: string, root: string, now: string,
                         status: string, details: string): AuditEntry
  {
    RestrictLog(now, root, Get(fileInfo, "Full Path"), Get(fileInfo, "Item Name"), id, status, details, original, desired)
  }

  function RestrictDetails(original: string, desired: string): string {
    "Set Restrict Download from '" + original + "' to '" + desired + "'"
  }

  /**
   * One desired setting: no entry and no request when it equals the
   * upper-cased original; otherwise one entry, DRY_RUN without a request in
   * dry run, else SUCCESS or ERROR after one update request.
   */
  function RestrictStep(t: DriveState, df: seq<Row>, report: seq<Row>, id: string, desired: string,
                        root: string, dryRun: bool, now: string): (r: (DriveState, seq<AuditEntry>))
    ensures RestrictSummaries(r.1) == ChangeOf(report, id, desired)
    ensures r.1 == [] || dryRun ==> r.0 == t
    ensures r.0.items == t.items && r.0.perms == t.perms
  {
    var original := Upper(OriginalRestriction(report, id));
    if desired == original then (t, [])
    else
      var info := FirstRowOf(df, id);
      var details := RestrictDetails(original, desired);
      if dryRun then (t, [RestrictEntry(info, id, original, desired, root, now, "DRY_RUN", details)])
      else
        var (u, o) := SetRestricted(t, id, desired == "TRUE");
        match o
        case Ok => (u, [RestrictEntry(info, id, original, desired, root, now, "SUCCESS", details)])
        case HttpError(st) => (u, [RestrictEntry(info, id, original, desired, root, now, "ERROR", ErrorText(st))])
  }

  /**
   * The entry of a changed setting names the item, the upper-cased original
   * and the desired value; it is DRY_RUN exactly in dry run, and SUCCESS
   * only once the file's restriction is set.
   */
  lemma RestrictStepEntry(t: DriveState, df: seq<Row>, report: seq<Row>, id: string, desired: string,
                          root: string, dryRun: bool, now: string)
    requires desired != Upper(OriginalRestriction(report, id))
    ensures var (u, more) := RestrictStep(t, df, report, id, desired, root, dryRun, now);
            && more[0].RestrictLog? && more[0].itemId == id && more[0].newRole == desired
            && more[0].origRole == Upper(OriginalRestriction(report, id))
            && (more[0].status == "DRY_RUN" <==> dryRun)
            && (more[0].status == "SUCCESS" ==> u.restricted == t.restricted[id := desired == "TRUE"])
  {
  }

  /** The audit entries of the first n desired settings, and the Drive after them. */
  function RestrictEntries(s: DriveState, df: seq<Row>, report: seq<Row>, dm: seq<(string, string)>, n: nat,
                           root: string, dryRun: bool, now: string): (r: (DriveState, seq<AuditEntry>))
    requires n <= |dm|
    ensures RestrictSummaries(r.1) == ExpectedChanges(report, dm, n)
    ensures dryRun ==> r.0 == s
    ensures r.0.items == s.items && r.0.perms == s.perms
  {
    if n == 0 then (s, [])
    else
      var (t, entries) := RestrictEntries(s, df, report, dm, n - 1, root, dryRun, now);
      var (u, more) := RestrictStep(t, df, report, dm[n - 1].0, dm[n - 1].1, root, dryRun, now);
      RestrictSummariesAppend(entries, more);
      (u, entries + more)
  }

  /** What a restriction entry says: whether it is one, its item, the original and the desired value. */
  function RestrictSummary(e: AuditEntry): (bool, string, string, string) {
    (e.RestrictLog?, e.itemId, e.origRole, e.newRole)
  }

  /** The entry a desired setting should produce: none when it equals the upper-cased original. */
  function ChangeOf(report: seq<Row>, id: string, desired: string): seq<(bool, string, string, string)> {
    var original := Upper(OriginalRestriction(report, id));
    if desired == original then [] else [(true, id, original, desired)]
  }

  function RestrictSummaries(entries: seq<AuditEntry>): (r: seq<(bool, string, string, string)>)
    ensures |r| == |entries|
  {
    if entries == [] then [] else RestrictSummaries(entries[..|entries| - 1]) + [RestrictSummary(entries[|entries| - 1])]
  }

  /** The entries the first n desired settings should produce, in order. */
  function ExpectedChanges(report: seq<Row>, dm: seq<(string, string)>, n: nat): seq<(bool, string, string, string)>
    requires n <= |dm|
  {
    if n == 0 then [] else ExpectedChanges(report, dm, n - 1) + ChangeOf(report, dm[n - 1].0, dm[n - 1].1)
  }

  lemma {:induction false} RestrictSummariesAppend(a: seq<AuditEntry>, b: seq<AuditEntry>)
    ensures RestrictSummaries(a + b) == RestrictSummaries(a) + RestrictSummaries(b)
    decreases |b|
  {
    if b != [] {
      var m := |b| - 1;
      assert (a + b)[..|a + b| - 1] == a + b[..m];
      RestrictSummariesAppend(a, b[..m]);
    } else {
      assert a + b == a;
    }
  }

  lemma {:induction false} RestrictSummariesAt(entries: seq<AuditEntry>)
    ensures forall k :: 0 <= k < |entries| ==> RestrictSummaries(entries)[k] == RestrictSummary(entries[k])
    decreases |entries|
  {
    if entries != [] {
      var m := |entries| - 1;
      RestrictSummariesAt(entries[..m]);
      assert forall k :: 0 <= k < m ==> entries[..m][k] == entries[k];
    }
  }

  lemma {:induction false} ExpectedChangesAt(report: seq<Row>, dm: seq<(string, string)>, n: nat)
    requires n <= |dm|
    ensures |ExpectedChanges(report, dm, n)| == |Changed(report, dm, n)|
    ensures forall k :: 0 <= k < |Changed(report, dm, n)| ==>
              ExpectedChanges(report, dm, n)[k]
                == (true, Changed(report, dm, n)[k].0, Upper(OriginalRestriction(report, Changed(report, dm, n)[k].0)), Changed(report, dm, n)[k].1)
  {
    if n > 0 {
      ExpectedChangesAt(report, dm, n - 1);
      var id := dm[n - 1].0;
      var desired := dm[n - 1].1;
      if desired != Upper(OriginalRestriction(report, id)) {
        var before := Changed(report, dm, n - 1);
        var expected := ExpectedChanges(report, dm, n - 1);
        assert Changed(report, dm, n) == before + [dm[n - 1]];
        assert ExpectedChanges(report, dm, n) == expected + [(true, id, Upper(OriginalRestriction(report, id)), desired)];
        forall k | 0 <= k < |before| + 1
          ensures ExpectedChanges(report, dm, n)[k]
                    == (true, Changed(report, dm, n)[k].0, Upper(OriginalRestriction(report, Changed(report, dm, n)[k].0)), Changed(report, dm, n)[k].1)
        {
          if k < |before| {
            assert ExpectedChanges(report, dm, n)[k] == expected[k];
            assert Changed(report, dm, n)[k] == before[k];
          }
        }
      } else {
        assert Changed(report, dm, n) == Changed(report, dm, n - 1);
        assert ExpectedChanges(report, dm, n) == ExpectedChanges(report, dm, n - 1);
      }
    }
  }

  /** The desired settings among the first n that differ from the report's. */
  function Changed(report: seq<Row>, dm: seq<(string, string)>, n: nat): seq<(string, string)>
    requires n <= |dm|
  {
    if n == 0 then []
    else if dm[n - 1].1 == Upper(OriginalRestriction(report, dm[n - 1].0)) then Changed(report, dm, n - 1)
    else Changed(report, dm, n - 1) + [dm[n - 1]]
  }

  /**
   * One entry per changed setting, in desired_map order, recording the
   * item, the old value (which rollback restores) and the new one.
   */
  lemma RestrictEntriesChanged(s: DriveState, df: seq<Row>, report: seq<Row>, dm: seq<(string, string)>, n: nat,
                                root: string, dryRun: bool, now: string)
    requires n <= |dm|
    ensures var entries := RestrictEntries(s, df, report, dm, n, root, dryRun, now).1;
            && |entries| == |Changed(report, dm, n)|
            && forall k :: 0 <= k < |entries| ==>
                 && entries[k].RestrictLog?
                 && entries[k].itemId == Changed(report, dm, n)[k].0
                 && entries[k].newRole == Changed(report, dm, n)[k].1
                 && entries[k].origRole == Upper(OriginalRestriction(report, Changed(report, dm, n)[k].0))
                 && entries[k].newRole != entries[k].origRole
  {
    var entries := RestrictEntries(s, df, report, dm, n, root, dryRun, now).1;
    RestrictSummariesAt(entries);
    ExpectedChangesAt(report, dm, n);
    ChangedDiffer(report, dm, n);
    forall k | 0 <= k < |entries|
      ensures entries[k].newRole != entries[k].origRole
    {
      assert RestrictSummary(entries[k]) == ExpectedChanges(report, dm, n)[k];
    }
  }

  /** A changed setting differs from the upper-cased original. */
  lemma {:induction false} ChangedDiffer(report: seq<Row>, dm: seq<(string, string)>, n: nat)
    requires n <= |dm|
    ensures forall k :: 0 <= k < |Changed(report, dm, n)| ==>
              Changed(report, dm, n)[k].1 != Upper(OriginalRestriction(report, Changed(report, dm, n)[k].0))
  {
    if n > 0 {
      ChangedDiffer(report, dm, n - 1);
    }
  }

  /** Whether the Restrict Download analysis runs, and the KeyError it meets if a column is missing. */
  function RestrictCheck(df: seq<Row>, report: seq<Row>): (r: Option<string>)
    ensures r.None? <==> HasColumn(report, "Item ID") && HasColumn(report, RD) && HasColumn(df, "Item ID")
    ensures r.Some? ==> r.value == KeyError("Item ID") || r.value == KeyError(RD)
  {
    if !HasColumn(report, "Item ID") then Some(KeyError("Item ID"))
    else if !HasColumn(report, RD) then Some(KeyError(RD))
    else if !HasColumn(df, "Item ID") then Some(KeyError("Item ID"))
    else None
  }

  // ================================================================ process_changes: actions

  /** What an action's Details column says. */
  datatype Message =
    | Added(address: string, role: string)
    | Removed(address: string, role: string)
    | Modified(address: string, oldRole: string, newRole: string)
    | MissingInfo(cmd: string, index: nat)
    | NotFound(address: string, role: string, verb: string)
    | Unsupported(cmd: string)
    | NoDetails
  {
    function Text(): string {
      match this
      case Added(a, r) => "Added " + a + " as " + r + "."
      case Removed(a, r) => "Removed " + a + " as " + r + "."
      case Modified(a, o, n) => "Modified " + a + " from " + o + " to " + n + "."
      case MissingInfo(cmd, index) =>
        if cmd == "MODIFY" then "Missing/invalid role info for MODIFY on row " + RowNumber(index) + "."
        else "Missing info for " + cmd + " on row " + RowNumber(index) + "."
      case NotFound(a, r, verb) => "Permission not found for " + a + " with role " + r + " to " + verb + "."
      case Unsupported(cmd) => "Unsupported Action_Type '" + cmd + "'."
      case NoDetails => ""
    }
  }

  /** How one live action ended: its Status and Details columns. */
  datatype Verdict = Succeeded(message: Message) | Skipped(message: Message) | Errored(code: int)
  {
    function Status(): string {
      match this
      case Succeeded(_) => "SUCCESS"
      case Skipped(_) => "SKIPPED"
      case Errored(_) => "ERROR"
    }

    function Details(): string {
      match this
      case Succeeded(m) => m.Text()
      case Skipped(m) => m.Text()
      case Errored(code) => ErrorText(code)
    }
  }

  /** The row number the messages quote: the frame index plus two (header and 1-based numbering). */
  function RowNumber(index: nat): string { DecimalString(index + 2) }

  /** A permission named in a row: principal type (lower-cased), address and API role. */
  datatype Principal = Principal(kind: string, address: string, role: string)

  /**
   * The principal named by three columns of a row, or None when the type or
   * address is blank or the role is not a UI role name (`not all([...])`).
   */
  function PrincipalIn(row: Row, kindCol: string, addressCol: string, roleCol: string): (p: Option<Principal>)
    ensures p.Some? ==> p.value.kind != "" && p.value.address != "" && p.value.role in RoleMap
    ensures p.Some? <==> Lower(StrGet(row, kindCol)) != "" && StrGet(row, addressCol) != "" && ApiRoleFor(StrGet(row, roleCol)).Some?
  {
    var kind := Lower(StrGet(row, kindCol));
    var address := StrGet(row, addressCol);
    var api := ApiRoleFor(StrGet(row, roleCol));
    if kind == "" || address == "" || api.None? then None else Some(Principal(kind, address, api.value))
  }

  /**
   * The ADD branch: SKIPPED without a request when information is missing;
   * otherwise SUCCESS exactly when the create request succeeded and added
   * the permission named by the ADD columns.
   */
  function LiveAdd(s: DriveState, row: Row, index: nat): (r: (DriveState, Verdict))
    ensures r.0.items == s.items && r.0.restricted == s.restricted && r.0.calls >= s.calls
    ensures r.1.Succeeded? ==> r.0.calls > s.calls
    ensures !r.1.Succeeded? ==> r.0.perms == s.perms
    ensures PrincipalIn(row, "Type (for ADD)", "Email/Domain (for ADD)", "New_Role").None? ==> r.0 == s && r.1.Skipped?
    ensures r.1.Succeeded? ==>
              var p := PrincipalIn(row, "Type (for ADD)", "Email/Domain (for ADD)", "New_Role").value;
              var id := StrGet(row, "Item ID");
              r.0.perms == s.perms[id := PermsOf(s, id) + [NewPermission("perm-" + DecimalString(s.issued), p.kind, p.role, p.address)]]
  {
    var roleUi := StrGet(row, "New_Role");
    match PrincipalIn(row, "Type (for ADD)", "Email/Domain (for ADD)", "New_Role")
    case None => (s, Skipped(MissingInfo("ADD", index)))
    case Some(p) =>
      var (t, o) := CreatePermission(s, StrGet(row, "Item ID"), p.kind, p.role, p.address);
      match o
      case Ok => (t, Succeeded(Added(p.address, roleUi)))
      case HttpError(st) => (t, Errored(st))
  }

  /**
   * The REMOVE branch: SUCCESS exactly when the file had a permission for
   * that principal and role and the delete request for it succeeded.
   */
  function LiveRemove(s: DriveState, row: Row, index: nat): (r: (DriveState, Verdict))
    ensures r.0.items == s.items && r.0.restricted == s.restricted && r.0.calls >= s.calls
    ensures r.1.Succeeded? ==> r.0.calls > s.calls
    ensures !r.1.Succeeded? ==> r.0.perms == s.perms
    ensures PrincipalIn(row, "Principal Type", "Email Address", "Role").None? ==> r.0 == s && r.1.Skipped?
  {
    var roleUi := StrGet(row, "Role");
    match PrincipalIn(row, "Principal Type", "Email Address", "Role")
    case None => (s, Skipped(MissingInfo("REMOVE", index)))
    case Some(p) =>
      var id := StrGet(row, "Item ID");
      var (t, pid) := FindPermission(s, id, p.kind, p.address, p.role);
      if pid.None? || pid.value == "" then
        (t, Skipped(NotFound(p.address, roleUi, "remove")))
      else
        var (u, o) := DeletePermission(t, id, pid.value);
        match o
        case Ok => (u, Succeeded(Removed(p.address, roleUi)))
        case HttpError(st) => (u, Errored(st))
  }

  /**
   * The MODIFY branch: SUCCESS exactly when the file had a permission for
   * that principal with the old role and the update to the new role succeeded.
   */
  function LiveModify(s: DriveState, row: Row, index: nat): (r: (DriveState, Verdict))
    ensures r.0.items == s.items && r.0.restricted == s.restricted && r.0.calls >= s.calls
    ensures r.1.Succeeded? ==> r.0.calls > s.calls
    ensures !r.1.Succeeded? ==> r.0.perms == s.perms
    ensures (PrincipalIn(row, "Principal Type", "Email Address", "Role").None? || ApiRoleFor(StrGet(row, "New_Role")).None?)
              ==> r.0 == s && r.1.Skipped?
  {
    var oldUi := StrGet(row, "Role");
    var newUi := StrGet(row, "New_Role");
    var newApi := ApiRoleFor(newUi);
    match PrincipalIn(row, "Principal Type", "Email Address", "Role")
    case None => (s, Skipped(MissingInfo("MODIFY", index)))
    case Some(p) =>
      if newApi.None? then (s, Skipped(MissingInfo("MODIFY", index)))
      else
        var id := StrGet(row, "Item ID");
        var (t, pid) := FindPermission(s, id, p.kind, p.address, p.role);
        if pid.None? || pid.value == "" then
          (t, Skipped(NotFound(p.address, oldUi, "modify")))
        else
          var (u, o) := UpdatePermission(t, id, pid.value, newApi.value);
          match o
          case Ok => (u, Succeeded(Modified(p.address, oldUi, newUi)))
          case HttpError(st) => (u, Errored(st))
  }

  /**
   * A successful REMOVE deleted the first permission of the file that
   * matches the row's principal and role.
   */
  lemma LiveRemoveSucceeded(s: DriveState, row: Row, index: nat)
    requires LiveRemove(s, row, index).1.Succeeded?
    ensures var p := PrincipalIn(row, "Principal Type", "Email Address", "Role").value;
            var id := StrGet(row, "Item ID");
            var k := FirstMatch(PermsOf(s, id), p.kind, p.address, p.role, 0);
            && k.Some? && Matches(PermsOf(s, id)[k.value], p.kind, p.address, p.role)
            && LiveRemove(s, row, index).0.perms == s.perms[id := WithoutPermission(PermsOf(s, id), PermsOf(s, id)[k.value].id)]
  {
    var p := PrincipalIn(row, "Principal Type", "Email Address", "Role").value;
    var id := StrGet(row, "Item ID");
    var (t, pid) := FindPermission(s, id, p.kind, p.address, p.role);
    assert PermsOf(t, id) == PermsOf(s, id);
  }

  /**
   * A successful MODIFY gave the first permission matching the row's
   * principal and old role the new role, and changed nothing else.
   */
  lemma LiveModifySucceeded(s: DriveState, row: Row, index: nat)
    requires LiveModify(s, row, index).1.Succeeded?
    ensures var p := PrincipalIn(row, "Principal Type", "Email Address", "Role").value;
            var id := StrGet(row, "Item ID");
            var k := FirstMatch(PermsOf(s, id), p.kind, p.address, p.role, 0);
            && k.Some? && ApiRoleFor(StrGet(row, "New_Role")).Some?
            && LiveModify(s, row, index).0.perms
               == s.perms[id := WithRole(PermsOf(s, id), PermsOf(s, id)[k.value].id, ApiRoleFor(StrGet(row, "New_Role")).value)]
  {
    var p := PrincipalIn(row, "Principal Type", "Email Address", "Role").value;
    var id := StrGet(row, "Item ID");
    var (t, pid) := FindPermission(s, id, p.kind, p.address, p.role);
    assert PermsOf(t, id) == PermsOf(s, id);
  }

  /** A verdict reports the answer of the write request it made: SUCCESS for Ok, ERROR with the status for an HttpError. */
  predicate Reports(v: Verdict, o: Outcome) {
    (v.Succeeded? <==> o.Ok?) && (v.Errored? <==> o.HttpError?) && (v.Errored? ==> v.code == o.status)
  }

  /**
   * The ADD statuses: SKIPPED without a request when information is
   * missing; otherwise the create request is made and the verdict reports
   * its answer.
   */
  lemma LiveAddStatuses(s: DriveState, row: Row, index: nat)
    ensures var p := PrincipalIn(row, "Type (for ADD)", "Email/Domain (for ADD)", "New_Role");
            var r := LiveAdd(s, row, index);
            if p.None? then r.0 == s && r.1.Skipped?
            else
              var c := CreatePermission(s, StrGet(row, "Item ID"), p.value.kind, p.value.role, p.value.address);
              r.0 == c.0 && Reports(r.1, c.1)
  {
  }

  /**
   * The REMOVE statuses once the principal is read: SKIPPED with the
   * permissions untouched when the listing fails or no permission matches
   * (the ValueError); otherwise the first match is deleted and the verdict
   * reports the answer of the delete.
   */
  lemma LiveRemoveStatuses(s: DriveState, row: Row, index: nat)
    ensures var p := PrincipalIn(row, "Principal Type", "Email Address", "Role");
            var id := StrGet(row, "Item ID");
            var r := LiveRemove(s, row, index);
            p.Some? ==>
              var listing := ListPermissions(s, id);
              var k := FirstMatch(PermsOf(s, id), p.value.kind, p.value.address, p.value.role, 0);
              if listing.1.Failed? || k.None? || PermsOf(s, id)[k.value].id == "" then
                r.0 == listing.0 && r.0.perms == s.perms && r.1.Skipped?
              else
                var d := DeletePermission(listing.0, id, PermsOf(s, id)[k.value].id);
                r.0 == d.0 && Reports(r.1, d.1)
  {
  }

  /**
   * The MODIFY statuses once both roles are read: SKIPPED with the
   * permissions untouched when the listing fails or no permission matches
   * the old role; otherwise the first match is updated and the verdict
   * reports the answer of the update.
   */
  lemma LiveModifyStatuses(s: DriveState, row: Row, index: nat)
    ensures var p := PrincipalIn(row, "Principal Type", "Email Address", "Role");
            var newApi := ApiRoleFor(StrGet(row, "New_Role"));
            var id := StrGet(row, "Item ID");
            var r := LiveModify(s, row, index);
            p.Some? && newApi.Some? ==>
              var listing := ListPermissions(s, id);
              var k := FirstMatch(PermsOf(s, id), p.value.kind, p.value.address, p.value.role, 0);
              if listing.1.Failed? || k.None? || PermsOf(s, id)[k.value].id == "" then
                r.0 == listing.0 && r.0.perms == s.perms && r.1.Skipped?
              else
                var u := UpdatePermission(listing.0, id, PermsOf(s, id)[k.value].id, newApi.value);
                r.0 == u.0 && Reports(r.1, u.1)
  {
  }

  /**
   * The write request a live action row ends in: the create of an ADD with
   * full information, or the delete or update of the first permission
   * matching a REMOVE or MODIFY; None when the row stops before any write
   * (an unsupported command, missing information, a failed listing or no
   * match).
   */
  function LiveRequest(s: DriveState, row: Row): Option<(DriveState, Outcome)> {
    var id := StrGet(row, "Item ID");
    var cmd := Command(row);
    if cmd == "ADD" then
      match PrincipalIn(row, "Type (for ADD)", "Email/Domain (for ADD)", "New_Role")
      case None => None
      case Some(p) => Some(CreatePermission(s, id, p.kind, p.role, p.address))
    else if cmd == "REMOVE" || cmd == "MODIFY" then
      var p := PrincipalIn(row, "Principal Type", "Email Address", "Role");
      var newApi := ApiRoleFor(StrGet(row, "New_Role"));
      var listing := ListPermissions(s, id);
      if p.None? || (cmd == "MODIFY" && newApi.None?) || listing.1.Failed? then None
      else
        match FirstMatch(listing.1.value, p.value.kind, p.value.address, p.value.role, 0)
        case None => None
        case Some(k) =>
          var pid := listing.1.value[k].id;
          if pid == "" then None
          else if cmd == "REMOVE" then Some(DeletePermission(listing.0, id, pid))
          else Some(UpdatePermission(listing.0, id, pid, newApi.value))
    else None
  }

  /**
   * The three outcomes of a live row: SKIPPED, with the permissions
   * untouched, exactly when it stops before any write request; otherwise the
   * Drive after that request, with SUCCESS when it answered Ok and ERROR
   * with its status when it raised an HttpError.
   */
  predicate ReportsRequest(s: DriveState, row: Row, index: nat) {
    var r := LiveRow(s, row, index);
    var q := LiveRequest(s, row);
    && (q.None? <==> r.1.Skipped?)
    && (q.None? ==> r.0.perms == s.perms)
    && (q.Some? ==> r.0 == q.value.0 && Reports(r.1, q.value.1))
  }

  /** Every live row ends in one of the three outcomes, whatever its command. */
  lemma LiveRowStatuses(s: DriveState, row: Row, index: nat)
    ensures ReportsRequest(s, row, index)
  {
    var cmd := Command(row);
    if cmd == "ADD" {
      LiveRowAdd(s, row, index);
    } else if cmd == "REMOVE" {
      LiveRowRemove(s, row, index);
    } else if cmd == "MODIFY" {
      LiveRowModify(s, row, index);
    }
  }

  /** The ADD case of LiveRowStatuses. */
  lemma LiveRowAdd(s: DriveState, row: Row, index: nat)
    requires Command(row) == "ADD"
    ensures ReportsRequest(s, row, index)
  {
    LiveAddStatuses(s, row, index);
  }

  /** The REMOVE case of LiveRowStatuses. */
  lemma LiveRowRemove(s: DriveState, row: Row, index: nat)
    requires Command(row) == "REMOVE"
    ensures ReportsRequest(s, row, index)
  {
    LiveRemoveStatuses(s, row, index);
  }

  /** The MODIFY case of LiveRowStatuses. */
  lemma LiveRowModify(s: DriveState, row: Row, index: nat)
    requires Command(row) == "MODIFY"
    ensures ReportsRequest(s, row, index)
  {
    LiveModifyStatuses(s, row, index);
  }

  /** The command of an action row: Action_Type stripped and upper-cased. */
  function Command(row: Row): string { Upper(Strip(StrGet(row, "Action_Type"))) }

  /** A command is already upper-case and has no surrounding spaces, so reading it again gives itself. */
  lemma CommandCanonical(row: Row)
    ensures var c := Command(row);
            && Upper(c) == c
            && (c == [] || (!IsSpace(c[0]) && !IsSpace(c[|c| - 1])))
  {
    UpperIdempotent(Strip(StrGet(row, "Action_Type")));
  }

  /**
   * One action row in live mode. A command other than ADD, REMOVE and MODIFY
   * is SKIPPED without a request; LiveRowAsWritten is the source's own
   * handling of it.
   */
  function LiveRow(s: DriveState, row: Row, index: nat): (r: (DriveState, Verdict))
    ensures r.0.items == s.items && r.0.restricted == s.restricted
    ensures !r.1.Succeeded? ==> r.0.perms == s.perms
    ensures Command(row) !in ["ADD", "REMOVE", "MODIFY"] ==> r.0 == s && r.1.Skipped?
    ensures r.1.Succeeded? ==> Command(row) in ["ADD", "REMOVE", "MODIFY"] && r.0.calls > s.calls
  {
    var cmd := Command(row);
    if cmd == "ADD" then LiveAdd(s, row, index)
    else if cmd == "REMOVE" then LiveRemove(s, row, index)
    else if cmd == "MODIFY" then LiveModify(s, row, index)
    else (s, Skipped(Unsupported(cmd)))
  }

  /**
   * The source's handling of a live row: a command other than ADD, REMOVE
   * and MODIFY falls through every branch to the SUCCESS assignment, whose
   * message then reads p_address — bound only if an earlier live row got
   * that far, and otherwise an UnboundLocalError nothing catches.
   */
  function LiveRowAsWritten(s: DriveState, row: Row, index: nat, addressBound: bool): (r: (DriveState, Run<Verdict>))
    ensures Command(row) in ["ADD", "REMOVE", "MODIFY"] ==> r == (LiveRow(s, row, index).0, Returned(LiveRow(s, row, index).1))
  {
    if Command(row) in ["ADD", "REMOVE", "MODIFY"] then (LiveRow(s, row, index).0, Returned(LiveRow(s, row, index).1))
    else if addressBound then (s, Returned(Succeeded(NoDetails)))
    else (s, Raised("UnboundLocalError: p_address"))
  }

  /**
   * As written, a misspelt command after an earlier live ADD, REMOVE or
   * MODIFY row is reported as a SUCCESS although no request was made; as the
   * first live row it raises; the corrected LiveRow skips it.
   */
  lemma UnknownCommandReportedAsSuccess(s: DriveState)
    ensures var row := map["Item ID" := "f1", "Action_Type" := "ADDD"];
            && LiveRowAsWritten(s, row, 0, true) == (s, Returned(Succeeded(NoDetails)))
            && LiveRowAsWritten(s, row, 0, false).1.Raised?
            && LiveRow(s, row, 0) == (s, Skipped(Unsupported("ADDD")))
  {
    var row := map["Item ID" := "f1", "Action_Type" := "ADDD"];
    assert StrGet(row, "Action_Type") == "ADDD";
    assert Strip("ADDD") == "ADDD" by { StripNoSpace("ADDD"); }
    assert Upper("ADDD") == "ADDD";
    assert Command(row) == "ADDD";
    assert "Unsupported Action_Type '" + "ADDD" + "'." == "Unsupported Action_Type 'ADDD'.";
  }

  /** A row with a non-blank Action_Type is an action. */
  predicate IsAction(row: Row) { Strip(Get(row, "Action_Type")) != "" }

  /** The audit entry of an action row before it is carried out. */
  function ActionEntry(row: Row, root: string, now: string, dryRun: bool): (e: AuditEntry)
    ensures e.ActionLog? && e.itemId == StrGet(row, "Item ID") && e.root == root && e.command == Command(row)
    ensures e.status == (if dryRun then "DRY_RUN" else "PENDING") && e.details == ""
  {
    ActionLog(now, root, Get(row, "Full Path"), Get(row, "Item Name"), StrGet(row, "Item ID"), Command(row),
              if dryRun then "DRY_RUN" else "PENDING", "",
              Get(row, "Principal Type"), Get(row, "Email Address"), Get(row, "Role"),
              Get(row, "Type (for ADD)"), Get(row, "Email/Domain (for ADD)"), Get(row, "New_Role"))
  }

  /**
   * One frame row: nothing for a blank Action_Type; otherwise one entry,
   * DRY_RUN without a request in dry run, else with the live verdict.
   */
  function ActionStep(t: DriveState, row: Row, index: nat, root: string, dryRun: bool, now: string): (r: (DriveState, seq<AuditEntry>))
    ensures Summaries(r.1, dryRun) == if IsAction(row) then [Expected(row)] else []
    ensures dryRun || !IsAction(row) ==> r.0 == t
    ensures r.0.items == t.items && r.0.restricted == t.restricted
    ensures IsAction(row) ==> r.1 == [ActionEntry(row, root, now, dryRun).(status := r.1[0].status, details := r.1[0].details)]
  {
    if !IsAction(row) then (t, [])
    else
      var entry := ActionEntry(row, root, now, dryRun);
      if dryRun then (t, [entry])
      else
        var (u, v) := LiveRow(t, row, index);
        (u, [entry.(status := v.Status(), details := v.Details())])
  }

  /** What an entry says: whether it is an action's, its item and command, and whether its status is one the mode allows. */
  function Summary(e: AuditEntry, dryRun: bool): (bool, string, string, bool) {
    (e.ActionLog?, e.itemId, e.ActionCommand(), e.status in (if dryRun then {"DRY_RUN"} else {"SUCCESS", "SKIPPED", "ERROR"}))
  }

  /** What the entry of an action row should say. */
  function Expected(row: Row): (bool, string, string, bool) {
    (true, StrGet(row, "Item ID"), Command(row), true)
  }

  /** An audit entry names the row's item and command, with a status its mode allows. */
  predicate Records(e: AuditEntry, row: Row, dryRun: bool) {
    && e.ActionLog? && e.itemId == StrGet(row, "Item ID") && e.command == Command(row)
    && e.status in (if dryRun then {"DRY_RUN"} else {"SUCCESS", "SKIPPED", "ERROR"})
  }

  /** The audit entries of the action rows among the first n frame rows, and the Drive after them. */
  function ActionEntries(s: DriveState, df: seq<Row>, n: nat, root: string, dryRun: bool, now: string): (r: (DriveState, seq<AuditEntry>))
    requires n <= |df|
    ensures Summaries(r.1, dryRun) == ExpectedRows(df, n)
    ensures dryRun ==> r.0 == s
    ensures r.0.items == s.items && r.0.restricted == s.restricted
  {
    if n == 0 then (s, [])
    else
      var (t, entries) := ActionEntries(s, df, n - 1, root, dryRun, now);
      var (u, more) := ActionStep(t, df[n - 1], n - 1, root, dryRun, now);
      SummariesAppend(entries, more, dryRun);
      (u, entries + more)
  }

  /** The positions of the action rows among the first n. */
  function ActionRows(df: seq<Row>, n: nat): (ix: seq<nat>)
    requires n <= |df|
    ensures forall k :: 0 <= k < |ix| ==> ix[k] < n
  {
    if n == 0 then []
    else if IsAction(df[n - 1]) then ActionRows(df, n - 1) + [n - 1]
    else ActionRows(df, n - 1)
  }

  /**
   * One entry per action row, in frame order, naming its item and command;
   * all DRY_RUN in dry run, and SUCCESS, SKIPPED or ERROR otherwise.
   */
  lemma ActionEntriesPerRow(s: DriveState, df: seq<Row>, n: nat, root: string, dryRun: bool, now: string)
    requires n <= |df|
    ensures var entries := ActionEntries(s, df, n, root, dryRun, now).1;
            var rows := ActionRows(df, n);
            && |entries| == |rows|
            && forall k :: 0 <= k < |entries| ==> rows[k] < |df| && Records(entries[k], df[rows[k]], dryRun)
  {
    var entries := ActionEntries(s, df, n, root, dryRun, now).1;
    ExpectedRowsAt(df, n);
    SummariesAt(entries, dryRun);
    forall k | 0 <= k < |entries|
      ensures Records(entries[k], df[ActionRows(df, n)[k]], dryRun)
    {
      assert Summary(entries[k], dryRun) == Expected(df[ActionRows(df, n)[k]]);
    }
  }

  function Summaries(entries: seq<AuditEntry>, dryRun: bool): (r: seq<(bool, string, string, bool)>)
    ensures |r| == |entries|
  {
    if entries == [] then [] else Summaries(entries[..|entries| - 1], dryRun) + [Summary(entries[|entries| - 1], dryRun)]
  }

  /** What the entries of the first n frame rows should say, in order. */
  function ExpectedRows(df: seq<Row>, n: nat): (r: seq<(bool, string, string, bool)>)
    requires n <= |df|
  {
    if n == 0 then []
    else ExpectedRows(df, n - 1) + if IsAction(df[n - 1]) then [Expected(df[n - 1])] else []
  }

  lemma {:induction false} SummariesAppend(a: seq<AuditEntry>, b: seq<AuditEntry>, dryRun: bool)
    ensures Summaries(a + b, dryRun) == Summaries(a, dryRun) + Summaries(b, dryRun)
    decreases |b|
  {
    if b != [] {
      var m := |b| - 1;
      assert (a + b)[..|a + b| - 1] == a + b[..m];
      SummariesAppend(a, b[..m], dryRun);
    } else {
      assert a + b == a;
    }
  }

  lemma {:induction false} SummariesAt(entries: seq<AuditEntry>, dryRun: bool)
    ensures forall k :: 0 <= k < |entries| ==> Summaries(entries, dryRun)[k] == Summary(entries[k], dryRun)
    decreases |entries|
  {
    if entries != [] {
      var m := |entries| - 1;
      SummariesAt(entries[..m], dryRun);
      assert forall k :: 0 <= k < m ==> entries[..m][k] == entries[k];
    }
  }

  lemma {:induction false} ExpectedRowsAt(df: seq<Row>, n: nat)
    requires n <= |df|
    ensures |ExpectedRows(df, n)| == |ActionRows(df, n)|
    ensures forall k :: 0 <= k < |ActionRows(df, n)| ==> ActionRows(df, n)[k] < |df| && ExpectedRows(df, n)[k] == Expected(df[ActionRows(df, n)[k]])
  {
    if n > 0 {
      ExpectedRowsAt(df, n - 1);
    }
  }

  // ================================================================ process_changes

  /**
   * process_changes: ([], 'N/A_RootID_FromProcess') when no root id can be
   * found; otherwise the Restrict Download entries followed by one entry per
   * action row, with the root id found. The live report is fetched from the
   * Drive unless one is given.
   */
  function ProcessSpec(s: DriveState, input: Input, dryRun: bool, live: Option<seq<Row>>, now: string,
                       rank: map<string, nat>): (r: (DriveState, Run<(seq<AuditEntry>, string)>))
    requires Ranked(s.items, rank)
    ensures r.0.items == s.items
    ensures ReadInput(input).None? || ReadInput(input).value.1 == "" ==> r == (s, Returned(([], NoRootId)))
    ensures ReadInput(input).Some? && ReadInput(input).value.1 != "" && r.1.Returned? ==> r.1.value.1 == ReadInput(input).value.1
    ensures dryRun ==> r.0.perms == s.perms && r.0.restricted == s.restricted
  {
    match ReadInput(input)
    case None => (s, Returned(([], NoRootId)))
    case Some((df, root)) =>
      if root == "" then (s, Returned(([], NoRootId)))
      else ProcessFrame(s, df, root, dryRun, live, now, rank)
  }

  /**
   * process_changes once the frame and its root id are read: the report (the
   * one given, or a fresh one of the root), the Restrict Download analysis,
   * then one entry per action row.
   */
  function ProcessFrame(s: DriveState, df: seq<Row>, root: string, dryRun: bool, live: Option<seq<Row>>, now: string,
                        rank: map<string, nat>): (r: (DriveState, Run<(seq<AuditEntry>, string)>))
    requires Ranked(s.items, rank)
    ensures r.0.items == s.items
    ensures r.1.Returned? ==> r.1.value.1 == root
    ensures dryRun ==> r.0.perms == s.perms && r.0.restricted == s.restricted
  {
    var (t, report) := if live.Some? then (s, live.value) else PermissionReport(s, root, "", rank);
    var (u, restrictions) := RestrictPhase(t, df, report, root, dryRun, now);
    match restrictions
    case Raised(e) => (u, Raised(e))
    case Returned(entries) =>
      if !HasColumn(df, "Action_Type") then (u, Raised(KeyError("Action_Type")))
      else
        var (v, actions) := ActionEntries(u, df, |df|, root, dryRun, now);
        (v, Returned((entries + actions, root)))
  }

  /**
   * The layout of process_changes' audit trail: Restrict Download entries
   * first, then one entry per action row of the frame, in frame order, each
   * naming its row's item and command.
   */
  predicate TrailLayout(es: seq<AuditEntry>, df: seq<Row>, dryRun: bool) {
    var rows := ActionRows(df, |df|);
    && |rows| <= |es|
    && (forall k :: 0 <= k < |es| - |rows| ==> es[k].RestrictLog?)
    && forall k :: 0 <= k < |rows| ==> rows[k] < |df| && Records(es[|es| - |rows| + k], df[rows[k]], dryRun)
  }

  /** A run that finds a root id returns its trail in that layout. */
  lemma ProcessEntries(s: DriveState, input: Input, dryRun: bool, live: Option<seq<Row>>, now: string, rank: map<string, nat>)
    requires Ranked(s.items, rank)
    ensures var r := ProcessSpec(s, input, dryRun, live, now, rank);
            ReadInput(input).Some? && ReadInput(input).value.1 != "" && r.1.Returned? ==>
              TrailLayout(r.1.value.0, ReadInput(input).value.0, dryRun)
  {
    var read := ReadInput(input);
    if read.Some? && read.value.1 != "" {
      var df := read.value.0;
      var root := read.value.1;
      assert ProcessSpec(s, input, dryRun, live, now, rank) == ProcessFrame(s, df, root, dryRun, live, now, rank);
      FrameEntries(s, df, root, dryRun, live, now, rank);
    }
  }

  /** The trail of a frame: its restriction entries, then one entry per action row. */
  lemma FrameEntries(s: DriveState, df: seq<Row>, root: string, dryRun: bool, live: Option<seq<Row>>, now: string,
                     rank: map<string, nat>)
    requires Ranked(s.items, rank)
    ensures var r := ProcessFrame(s, df, root, dryRun, live, now, rank);
            r.1.Returned? ==> TrailLayout(r.1.value.0, df, dryRun)
  {
    var r := ProcessFrame(s, df, root, dryRun, live, now, rank);
    if r.1.Returned? {
      var t := if live.Some? then s else PermissionReport(s, root, "", rank).0;
      var report := if live.Some? then live.value else PermissionReport(s, root, "", rank).1;
      var ph := RestrictPhase(t, df, report, root, dryRun, now);
      var acts := ActionEntries(ph.0, df, |df|, root, dryRun, now);
      assert r.1.value.0 == ph.1.value + acts.1;
      RestrictPhaseEntries(t, df, report, root, dryRun, now);
      ActionEntriesPerRow(ph.0, df, |df|, root, dryRun, now);
      EntriesLayout(ph.1.value, acts.1, df, dryRun);
    }
  }

  /** Restriction entries followed by one entry per action row are in the trail's layout. */
  lemma EntriesLayout(a: seq<AuditEntry>, b: seq<AuditEntry>, df: seq<Row>, dryRun: bool)
    requires forall k :: 0 <= k < |a| ==> a[k].RestrictLog?
    requires var rows := ActionRows(df, |df|);
             |b| == |rows| && forall k :: 0 <= k < |b| ==> rows[k] < |df| && Records(b[k], df[rows[k]], dryRun)
    ensures TrailLayout(a + b, df, dryRun)
  {
    var es := a + b;
    var rows := ActionRows(df, |df|);
    assert |es| - |rows| == |a|;
    forall k | 0 <= k < |a|
      ensures es[k].RestrictLog?
    {
      assert es[k] == a[k];
    }
    forall k | 0 <= k < |rows|
      ensures rows[k] < |df| && Records(es[|es| - |rows| + k], df[rows[k]], dryRun)
    {
      assert es[|es| - |rows| + k] == b[k];
    }
  }

  /** The Restrict Download analysis returns only restriction entries. */
  lemma RestrictPhaseEntries(t: DriveState, df: seq<Row>, report: seq<Row>, root: string, dryRun: bool, now: string)
    ensures var r := RestrictPhase(t, df, report, root, dryRun, now).1;
            r.Returned? ==> forall k :: 0 <= k < |r.value| ==> r.value[k].RestrictLog?
  {
    var r := RestrictPhase(t, df, report, root, dryRun, now).1;
    if r.Returned? && HasColumn(df, RD) && report != [] {
      var dm := DesiredMap(df, GroupIds(df), |GroupIds(df)|);
      RestrictEntriesChanged(t, df, report, dm, |dm|, root, dryRun, now);
    }
  }

  /**
   * The Restrict Download analysis: nothing unless the input has the column
   * and the report is non-empty; a KeyError when a column it reads is missing.
   */
  function RestrictPhase(t: DriveState, df: seq<Row>, report: seq<Row>, root: string, dryRun: bool, now: string): (r: (DriveState, Run<seq<AuditEntry>>))
    ensures r.0.items == t.items && r.0.perms == t.perms
    ensures dryRun || r.1.Raised? ==> r.0 == t
  {
    if !HasColumn(df, RD) || report == [] then (t, Returned([]))
    else if RestrictCheck(df, report).Some? then (t, Raised(RestrictCheck(df, report).value))
    else
      var dm := DesiredMap(df, GroupIds(df), |GroupIds(df)|);
      var (u, entries) := RestrictEntries(t, df, report, dm, |dm|, root, dryRun, now);
      (u, Returned(entries))
  }

  method ProcessChanges(svc: DriveService, input: Input, dryRun: bool, live: Option<seq<Row>>, now: string,
                        rank: map<string, nat>) returns (r: Run<(seq<AuditEntry>, string)>)
    requires Ranked(svc.state.items, rank)
    modifies svc
    ensures (svc.state, r) == ProcessSpec(old(svc.state), input, dryRun, live, now, rank)
  {
    var read := ReadInput(input);
    if read.None? {
      return Returned(([], NoRootId));
    }
    var (df, root) := read.value;
    if root == "" {
      return Returned(([], NoRootId));
    }
    var report;
    if live.Some? {
      report := live.value;
    } else {
      report := GeneratePermissionReport(svc, root, "", rank);
    }
    var restrictions := AnalyseRestrictions(svc, df, report, root, dryRun, now);
    if restrictions.Raised? {
      return Raised(restrictions.exception);
    }
    if !HasColumn(df, "Action_Type") {
      return Raised(KeyError("Action_Type"));
    }
    var actions := ApplyActions(svc, df, root, dryRun, now);
    return Returned((restrictions.value + actions, root));
  }

  method AnalyseRestrictions(svc: DriveService, df: seq<Row>, report: seq<Row>, root: string, dryRun: bool, now: string)
    returns (r: Run<seq<AuditEntry>>)
    modifies svc
    ensures (svc.state, r) == RestrictPhase(old(svc.state), df, report, root, dryRun, now)
  {
    if !HasColumn(df, RD) || report == [] {
      return Returned([]);
    }
    var check := RestrictCheck(df, report);
    if check.Some? {
      return Raised(check.value);
    }
    var dm := BuildDesiredMap(df, GroupIds(df));
    var entries := ApplyRestrictions(svc, df, report, dm, root, dryRun, now);
    return Returned(entries);
  }

  /** The loop that fills desired_map, one group at a time. */
  method BuildDesiredMap(df: seq<Row>, ids: seq<string>) returns (dm: seq<(string, string)>)
    ensures dm == DesiredMap(df, ids, |ids|)
  {
    dm := [];
    var n := 0;
    while n < |ids|
      invariant n <= |ids| && dm == DesiredMap(df, ids, n)
    {
      var desired := DesiredOf(df, ids[n]);
      if desired.Some? {
        dm := dm + [(ids[n], desired.value)];
      }
      n := n + 1;
    }
  }

  /** Lines 105-107 for one group: TRUE if a cell says TRUE, else FALSE if one says FALSE. */
  method DesiredOf(df: seq<Row>, id: string) returns (d: Option<string>)
    ensures d == Desired(df, id)
  {
    var restrictions := RestrictionsOf(df, id);
    if "TRUE" in restrictions {
      d := Some("TRUE");
    } else if "FALSE" in restrictions {
      d := Some("FALSE");
    } else {
      d := None;
    }
  }

  /** The list comprehension over a group's Restrict Download cells. */
  method RestrictionsOf(df: seq<Row>, id: string) returns (rs: seq<string>)
    ensures rs == Restrictions(df, id, |df|)
  {
    rs := [];
    var k := 0;
    while k < |df|
      invariant k <= |df| && rs == Restrictions(df, id, k)
    {
      var v := Strip(Get(df[k], RD));
      if Get(df[k], "Item ID") == id && v != "" {
        rs := rs + [Upper(v)];
      }
      k := k + 1;
    }
  }

  /** The loop over desired_map. */
  method ApplyRestrictions(svc: DriveService, df: seq<Row>, report: seq<Row>, dm: seq<(string, string)>,
                           root: string, dryRun: bool, now: string) returns (entries: seq<AuditEntry>)
    modifies svc
    ensures (svc.state, entries) == RestrictEntries(old(svc.state), df, report, dm, |dm|, root, dryRun, now)
  {
    ghost var s0 := svc.state;
    entries := [];
    var n := 0;
    while n < |dm|
      invariant n <= |dm|
      invariant svc.state == RestrictEntries(s0, df, report, dm, n, root, dryRun, now).0
      invariant entries == RestrictEntries(s0, df, report, dm, n, root, dryRun, now).1
    {
      ghost var before := svc.state;
      var more := ApplyRestriction(svc, df, report, dm[n].0, dm[n].1, root, dryRun, now);
      assert (svc.state, more) == RestrictStep(before, df, report, dm[n].0, dm[n].1, root, dryRun, now);
      entries := entries + more;
      n := n + 1;
    }
  }

  /** One desired setting: compare, record, and in live mode update the file. */
  method ApplyRestriction(svc: DriveService, df: seq<Row>, report: seq<Row>, id: string, desired: string,
                          root: string, dryRun: bool, now: string) returns (more: seq<AuditEntry>)
    modifies svc
    ensures (svc.state, more) == RestrictStep(old(svc.state), df, report, id, desired, root, dryRun, now)
  {
    var original := Upper(OriginalRestriction(report, id));
    if desired == original {
      return [];
    }
    var info := FirstRowOf(df, id);
    var details := RestrictDetails(original, desired);
    if dryRun {
      return [RestrictEntry(info, id, original, desired, root, now, "DRY_RUN", details)];
    }
    var o := svc.Restrict(id, desired == "TRUE");
    if o.Ok? {
      more := [RestrictEntry(info, id, original, desired, root, now, "SUCCESS", details)];
    } else {
      more := [RestrictEntry(info, id, original, desired, root, now, "ERROR", ErrorText(o.status))];
    }
  }

  /** The loop over the action rows. */
  method ApplyActions(svc: DriveService, df: seq<Row>, root: string, dryRun: bool, now: string) returns (entries: seq<AuditEntry>)
    modifies svc
    ensures (svc.state, entries) == ActionEntries(old(svc.state), df, |df|, root, dryRun, now)
  {
    ghost var s0 := svc.state;
    entries := [];
    var n := 0;
    while n < |df|
      invariant n <= |df|
      invariant svc.state == ActionEntries(s0, df, n, root, dryRun, now).0
      invariant entries == ActionEntries(s0, df, n, root, dryRun, now).1
    {
      ghost var before := svc.state;
      var more := ApplyAction(svc, df[n], n, root, dryRun, now);
      assert (svc.state, more) == ActionStep(before, df[n], n, root, dryRun, now);
      entries := entries + more;
      n := n + 1;
    }
  }

  /** One frame row of the action loop. */
  method ApplyAction(svc: DriveService, row: Row, index: nat, root: string, dryRun: bool, now: string) returns (more: seq<AuditEntry>)
    modifies svc
    ensures (svc.state, more) == ActionStep(old(svc.state), row, index, root, dryRun, now)
  {
    if !IsAction(row) {
      return [];
    }
    var entry := ActionEntry(row, root, now, dryRun);
    if dryRun {
      return [entry];
    }
    var v := ApplyLiveRow(svc, row, index);
    more := [entry.(status := v.Status(), details := v.Details())];
  }

  /** The try block of the action loop. */
  method ApplyLiveRow(svc: DriveService, row: Row, index: nat) returns (v: Verdict)
    modifies svc
    ensures (svc.state, v) == LiveRow(old(svc.state), row, index)
  {
    var cmd := Command(row);
    if cmd == "ADD" {
      v := ApplyAdd(svc, row, index);
    } else if cmd == "REMOVE" {
      v := ApplyRemove(svc, row, index);
    } else if cmd == "MODIFY" {
      v := ApplyModify(svc, row, index);
    } else {
      v := Skipped(Unsupported(cmd));
    }
  }

  method ApplyAdd(svc: DriveService, row: Row, index: nat) returns (v: Verdict)
    modifies svc
    ensures (svc.state, v) == LiveAdd(old(svc.state), row, index)
  {
    var roleUi := StrGet(row, "New_Role");
    var p := PrincipalIn(row, "Type (for ADD)", "Email/Domain (for ADD)", "New_Role");
    if p.None? {
      return Skipped(MissingInfo("ADD", index));
    }
    var o := svc.Create(StrGet(row, "Item ID"), p.value.kind, p.value.role, p.value.address);
    if o.Ok? {
      v := Succeeded(Added(p.value.address, roleUi));
    } else {
      v := Errored(o.status);
    }
  }

  method ApplyRemove(svc: DriveService, row: Row, index: nat) returns (v: Verdict)
    modifies svc
    ensures (svc.state, v) == LiveRemove(old(svc.state), row, index)
  {
    var roleUi := StrGet(row, "Role");
    var p := PrincipalIn(row, "Principal Type", "Email Address", "Role");
    if p.None? {
      return Skipped(MissingInfo("REMOVE", index));
    }
    var id := StrGet(row, "Item ID");
    var pid := FindPermissionId(svc, id, p.value.kind, p.value.address, p.value.role);
    if pid.None? || pid.value == "" {
      return Skipped(NotFound(p.value.address, roleUi, "remove"));
    }
    var o := svc.Delete(id, pid.value);
    if o.Ok? {
      v := Succeeded(Removed(p.value.address, roleUi));
    } else {
      v := Errored(o.status);
    }
  }

  method ApplyModify(svc: DriveService, row: Row, index: nat) returns (v: Verdict)
    modifies svc
    ensures (svc.state, v) == LiveModify(old(svc.state), row, index)
  {
    var oldUi := StrGet(row, "Role");
    var newUi := StrGet(row, "New_Role");
    var newApi := ApiRoleFor(newUi);
    var p := PrincipalIn(row, "Principal Type", "Email Address", "Role");
    if p.None? || newApi.None? {
      return Skipped(MissingInfo("MODIFY", index));
    }
    var id := StrGet(row, "Item ID");
    var pid := FindPermissionId(svc, id, p.value.kind, p.value.address, p.value.role);
    if pid.None? || pid.value == "" {
      return Skipped(NotFound(p.value.address, oldUi, "modify"));
    }
    var o := svc.Update(id, pid.value, newApi.value);
    if o.Ok? {
      v := Succeeded(Modified(p.value.address, oldUi, newUi));
    } else {
      v := Errored(o.status);
    }
  }
}
