/**
 * src/controller.py: the file-name sanitiser, and the apply-changes and
 * rollback runs — which root folder id they use, when they give up, and
 * which archives and audit logs they write.
 */
module Controller {
  import opened Wrappers
  import opened Text
  import opened Drive
  import opened Rows
  import opened ReportGenerator
  import opened PermissionManager
  import opened Spreadsheet

  // ================================================================ _sanitize_filename

  /** The characters turned into '_' rather than dropped. */
  predicate IsSeparator(c: char) { c == ' ' || c == '/' || c == '\\' }

  /** The characters a sanitised name keeps. */
  predicate IsNameChar(c: char) { IsAlnum(c) || c == '_' || c == '-' }

  /** The three str.replace calls: every separator becomes '_'. */
  function Replaced(name: string): string {
    seq(|name|, i requires 0 <= i < |name| => if IsSeparator(name[i]) then '_' else name[i])
  }

  /** The join over the characters that are alphanumeric, '_' or '-'. */
  function Filtered(t: string): (r: string)
    ensures |r| <= |t|
    ensures forall i :: 0 <= i < |r| ==> IsNameChar(r[i])
  {
    if t == [] then []
    else (if IsNameChar(t[0]) then [t[0]] else []) + Filtered(t[1..])
  }

  const Unnamed: string := "unnamed_item"

  /**
   * _sanitize_filename(name): separators become '_', every other character
   * that is not alphanumeric, '_' or '-' is dropped, the result is stripped,
   * and an empty result becomes "unnamed_item".
   */
  function SanitizeFilename(name: string): (r: string)
    ensures r != ""
    ensures forall i :: 0 <= i < |r| ==> IsNameChar(r[i])
    ensures r == Unnamed || r == Filtered(Replaced(name))
  {
    var kept := Filtered(Replaced(name));
    StripNoSpace(kept);
    var stripped := Strip(kept);
    if stripped == "" then Unnamed else stripped
  }

  /** What one character of the name becomes. */
  function CharResult(c: char): string {
    if IsSeparator(c) then "_" else if IsNameChar(c) then [c] else ""
  }

  /**
   * The sanitiser works character by character: the kept text of a
   * concatenation is the concatenation of the kept texts ...
   */
  lemma KeptAppend(a: string, b: string)
    ensures Filtered(Replaced(a + b)) == Filtered(Replaced(a)) + Filtered(Replaced(b))
  {
    assert Replaced(a + b) == Replaced(a) + Replaced(b);
    FilteredAppend(Replaced(a), Replaced(b));
  }

  /** ... and each character is kept, turned into '_' or dropped. */
  lemma KeptChar(c: char)
    ensures Filtered(Replaced([c])) == CharResult(c)
  {
    assert Replaced([c]) == [if IsSeparator(c) then '_' else c];
  }

  lemma {:induction false} FilteredAppend(a: string, b: string)
    ensures Filtered(a + b) == Filtered(a) + Filtered(b)
  {
    if a != [] {
      assert (a + b)[1..] == a[1..] + b;
      FilteredAppend(a[1..], b);
    } else {
      assert a + b == b;
    }
  }

  /** A name made only of kept characters other than separators is its own kept text. */
  lemma {:induction false} KeptOfClean(t: string)
    requires forall i :: 0 <= i < |t| ==> IsNameChar(t[i])
    ensures Replaced(t) == t && Filtered(t) == t
  {
    if t != [] {
      KeptOfClean(t[1..]);
    }
  }

  /** Sanitising a sanitised name changes nothing. */
  lemma SanitizeIdempotent(name: string)
    ensures SanitizeFilename(SanitizeFilename(name)) == SanitizeFilename(name)
  {
    var r := SanitizeFilename(name);
    KeptOfClean(r);
  }

  /** "unnamed_item" comes out exactly when no character of the name survives; otherwise the kept text, unstripped. */
  lemma SanitizeUnnamed(name: string)
    ensures Filtered(Replaced(name)) == "" ==> SanitizeFilename(name) == Unnamed
    ensures Filtered(Replaced(name)) != "" ==> SanitizeFilename(name) == Filtered(Replaced(name))
    ensures SanitizeFilename(name) == Unnamed <==>
              Filtered(Replaced(name)) == Unnamed || forall i :: 0 <= i < |name| ==> !IsSeparator(name[i]) && !IsNameChar(name[i])
  {
    StripNoSpace(Filtered(Replaced(name)));
    KeptEmpty(name);
  }

  /** No character survives exactly when the name has no separator and no kept character. */
  lemma {:induction false} KeptEmpty(name: string)
    ensures Filtered(Replaced(name)) == "" <==> forall i :: 0 <= i < |name| ==> !IsSeparator(name[i]) && !IsNameChar(name[i])
  {
    if name != [] {
      KeptEmpty(name[1..]);
      var t := Replaced(name);
      assert t[1..] == Replaced(name[1..]);
      assert Filtered(t) == (if IsNameChar(t[0]) then [t[0]] else []) + Filtered(t[1..]);
      if forall i :: 0 <= i < |name[1..]| ==> !IsSeparator(name[1..][i]) && !IsNameChar(name[1..][i]) {
        forall i | 1 <= i < |name|
          ensures !IsSeparator(name[i]) && !IsNameChar(name[i])
        {
          assert name[i] == name[1..][i - 1];
        }
      }
    }
  }

  // ================================================================ run_apply_changes / run_rollback

  /** What a run writes: a CSV file, or an audit log holding the entries of a trail. */
  datatype Written = CsvFile(path: string, table: Table) | AuditLog(path: string, entries: seq<AuditEntry>)

  /** write_report_to_csv(data, path): nothing when the data is empty. */
  function CsvWrite(path: string, data: seq<Row>): (w: seq<Written>)
    ensures |w| <= 1
    ensures w == [] <==> data == []
  {
    match ReportCsv(data)
    case None => []
    case Some(t) => [CsvFile(path, t)]
  }

  /** _get_item_name: the item's name, or "UnknownItem" when it cannot be read. */
  function NameOf(got: Reply<Item>): string {
    if got.Done? then got.value.name else "UnknownItem"
  }

  /** A non-empty override wins over the root id found in the input. */
  function ResolveRoot(override: string, found: string): (root: string)
    ensures override != "" ==> root == override
    ensures override == "" ==> root == found
  {
    if override != "" then override else found
  }

  /** How a run ended: its return value or the exception it raised, and the files it had written by then. */
  datatype RunResult = RunResult(outcome: Run<bool>, written: seq<Written>)

  /**
   * run_apply_changes(sheet, is_live, override): process the sheet, then
   * finish with the trail and the resolved root id; an exception from
   * process_changes ends the run.
   */
  function ApplySpec(s: DriveState, sheet: Option<seq<Row>>, isLive: bool, override: string, stamp: string, now: string,
                     rank: map<string, nat>): (r: (DriveState, RunResult))
    requires Ranked(s.items, rank)
    ensures r.0.items == s.items
    ensures !isLive ==> r.0.perms == s.perms && r.0.restricted == s.restricted
    ensures sheet.None? && override == "" ==> r == (s, RunResult(Returned(false), []))
    ensures r.1.outcome.Raised? ==> r.1.written == []
  {
    var (t, processed) := ProcessSpec(s, ExcelSheet(sheet), !isLive, None, now, rank);
    match processed
    case Raised(e) => (t, RunResult(Raised(e), []))
    case Returned((trail, found)) =>
      var (u, done) := ApplyFinish(t, trail, ResolveRoot(override, found), stamp, rank);
      (u, RunResult(Returned(done.0), done.1))
  }

  /**
   * The rest of run_apply_changes: give up without a usable root id; stop
   * quietly when there is no audit entry; otherwise archive the current
   * report and save the audit trail.
   */
  function ApplyFinish(t: DriveState, trail: seq<AuditEntry>, root: string, stamp: string, rank: map<string, nat>)
    : (r: (DriveState, (bool, seq<Written>)))
    requires Ranked(t.items, rank)
    ensures SameContents(r.0, t)
  {
    if root == "" || root == NoRootId then (t, (false, []))
    else if trail == [] then (t, (true, []))
    else
      var (u, got) := GetItem(t, root);
      var name := SanitizeFilename(NameOf(got));
      var (v, report) := PermissionReport(u, root, "", rank);
      (v, (true, CsvWrite("archives/" + stamp + "_apply_" + name + "_pre_changes.csv", report)
                 + [AuditLog("logs/" + stamp + "_apply_" + name + "_audit.csv", trail)]))
  }

  /**
   * An apply run fails exactly when the resolved root id is empty or the
   * marker process_changes returns without one; it writes nothing and
   * makes no request when it fails or the trail is empty; otherwise its
   * last file is the audit log of the trail.
   */
  lemma ApplyOutcome(t: DriveState, trail: seq<AuditEntry>, root: string, stamp: string, rank: map<string, nat>)
    requires Ranked(t.items, rank)
    ensures ApplyFinish(t, trail, root, stamp, rank).1.0 <==> root != "" && root != NoRootId
    ensures var r := ApplyFinish(t, trail, root, stamp, rank);
            !r.1.0 || trail == [] ==> r.0 == t && r.1.1 == []
    ensures var w := ApplyFinish(t, trail, root, stamp, rank).1.1;
            root != "" && root != NoRootId && trail != [] ==> w != [] && w[|w| - 1].AuditLog? && w[|w| - 1].entries == trail
  {
  }

  /** The twelve columns of the temporary rollback sheet, in the order line 116 lists them. */
  const TempColumns: seq<string> := ["Item ID", "Action_Type", "New_Role", "Type (for ADD)", "Email/Domain (for ADD)",
                                     "Principal Type", "Email Address", "Role", "Full Path", "Item Name",
                                     "Root Folder ID", "Restrict Download"]

  /**
   * One rollback action as process_changes reads it back from the temporary
   * sheet: reindexed to the twelve columns, blanks filled, and every NA
   * marker cell read as "" (read_excel with its default NA values, then
   * fillna('')).
   */
  function TempRow(a: Row): (r: Row)
    ensures r.Keys == RollbackColumns
    ensures forall c :: c in RollbackColumns ==> r[c] == NaRead(Get(a, c))
  {
    assert (set c | c in TempColumns) == RollbackColumns;
    map c | c in TempColumns :: NaRead(Get(a, c))
  }

  /** A row with exactly the twelve columns comes back from the sheet as that row read back. */
  lemma TempRowKeeps(a: Row)
    requires a.Keys == RollbackColumns
    ensures TempRow(a) == ReadBack(a)
  {
    ReadBackMatch(a, TempRow(a));
  }

  /**
   * A rollback action comes back from the sheet with its NA marker cells
   * blank: for an item the live report lacks, the 'N/A' path and name read
   * as "". An action without NA markers comes back unchanged.
   */
  lemma TempRowOfRollback(e: Row, meta: map<string, ItemInfo>, root: string)
    requires RollbackOf(e, meta, root).Some?
    ensures var a := RollbackOf(e, meta, root).value;
            && TempRow(a) == ReadBack(a)
            && (NoNaCells(a) ==> TempRow(a) == a)
            && (Get(e, "Item ID") !in meta ==> TempRow(a)["Full Path"] == "" && TempRow(a)["Item Name"] == "")
  {
    var a := RollbackOf(e, meta, root).value;
    RollbackColumnsPresent(e, meta, root);
    TempRowKeeps(a);
    if NoNaCells(a) {
      ReadBackPlain(a);
    }
    LiteralsRead();
  }

  function TempSheet(actions: seq<Row>): (rows: seq<Row>)
    ensures |rows| == |actions|
    ensures forall i :: 0 <= i < |actions| ==> rows[i] == TempRow(actions[i])
  {
    seq(|actions|, i requires 0 <= i < |actions| => TempRow(actions[i]))
  }

  /** The log run_rollback can use: readable, with a Root Folder ID column, a row, and a non-blank first root id. */
  predicate UsableLog(log: Option<seq<Row>>) {
    log.Some? && HasColumn(log.value, "Root Folder ID") && log.value != [] && Get(log.value[0], "Root Folder ID") != ""
  }

  /** Lines 90-98: the root id to use, or None when the run gives up. */
  function RollbackRoot(log: Option<seq<Row>>, override: string): (r: Option<string>)
    ensures r.Some? ==> r.value != ""
  {
    if log.None? then None
    else
      var df := Frame(log.value);
      if !HasColumn(df, "Root Folder ID") || df == [] || Get(df[0], "Root Folder ID") == "" then None
      else Some(ResolveRoot(override, Get(df[0], "Root Folder ID")))
  }

  /** The run gives up exactly for an unusable log; otherwise a non-empty override wins over the log's root id. */
  lemma RollbackRootRule(log: Option<seq<Row>>, override: string)
    ensures RollbackRoot(log, override).None? <==> !UsableLog(log)
    ensures UsableLog(log) ==>
              RollbackRoot(log, override) == Some(if override != "" then override else Get(log.value[0], "Root Folder ID"))
  {
    if log.Some? {
      FrameColumns(log.value, "Root Folder ID");
    }
  }

  /**
   * run_rollback(log, is_live, override): give up when the log is not
   * usable; otherwise read the live report of the root, archive it, undo
   * the log and save the audit trail of the undo if it is not empty.
   */
  function RollbackSpec(s: DriveState, log: Option<seq<Row>>, isLive: bool, override: string, stamp: string, now: string,
                        rank: map<string, nat>): (r: (DriveState, RunResult))
    requires Ranked(s.items, rank)
    ensures r.0.items == s.items
    ensures !isLive ==> r.0.perms == s.perms && r.0.restricted == s.restricted
    ensures !UsableLog(log) ==> r == (s, RunResult(Returned(false), []))
  {
    match RollbackRoot(log, override)
    case None => (s, RunResult(Returned(false), []))
    case Some(root) =>
      var (t, got) := GetItem(s, root);
      var name := SanitizeFilename(NameOf(got));
      var (u, live) := PermissionReport(t, root, "", rank);
      var (v, undone) := UndoSpec(u, Frame(log.value), live, isLive, now, rank);
      (v, RollbackFinish(CsvWrite("archives/" + stamp + "_rollback_" + name + "_pre_rollback.csv", live), undone,
                         "logs/" + stamp + "_rollback_" + name + "_audit.csv"))
  }

  /**
   * Lines 110-122: invert the log against the live report, and, when there
   * is something to undo, process the inverse actions from the temporary
   * sheet with the live report given.
   */
  function UndoSpec(u: DriveState, df: seq<Row>, live: seq<Row>, isLive: bool, now: string, rank: map<string, nat>)
    : (r: (DriveState, Run<seq<AuditEntry>>))
    requires Ranked(u.items, rank)
    ensures r.0.items == u.items
    ensures !isLive ==> r.0.perms == u.perms && r.0.restricted == u.restricted
    ensures RollbackActions(Some(df), live) == Returned([]) ==> r == (u, Returned([]))
  {
    match RollbackActions(Some(df), live)
    case Raised(e) => (u, Raised(e))
    case Returned(actions) =>
      if actions == [] then (u, Returned([]))
      else
        var (v, processed) := ProcessSpec(u, ExcelSheet(Some(TempSheet(actions))), !isLive, Some(live), now, rank);
        match processed
        case Raised(e) => (v, Raised(e))
        case Returned((trail, _)) => (v, Returned(trail))
  }

  /**
   * Lines 124-131: save the trail when it is not empty, and return True; an
   * exception from the undo ends the run. Either way the archive written
   * at line 106 stays written.
   */
  function RollbackFinish(archive: seq<Written>, undone: Run<seq<AuditEntry>>, logPath: string): (r: RunResult)
    ensures r.outcome.Raised? <==> undone.Raised?
    ensures r.outcome.Raised? ==> r.outcome.exception == undone.exception && r.written == archive
    ensures r.outcome.Returned? ==> r.outcome.value
    ensures archive <= r.written
  {
    match undone
    case Raised(e) => RunResult(Raised(e), archive)
    case Returned(trail) => RunResult(Returned(true), archive + (if trail == [] then [] else [AuditLog(logPath, trail)]))
  }

  /** A rollback returns False, touching nothing, exactly when the log is not usable. */
  lemma RollbackOutcome(s: DriveState, log: Option<seq<Row>>, isLive: bool, override: string, stamp: string, now: string,
                        rank: map<string, nat>)
    requires Ranked(s.items, rank)
    ensures RollbackSpec(s, log, isLive, override, stamp, now, rank).1 == RunResult(Returned(false), []) <==> !UsableLog(log)
    ensures !UsableLog(log) ==> RollbackSpec(s, log, isLive, override, stamp, now, rank).0 == s
  {
    RollbackRootRule(log, override);
  }

  /** An audit log is saved exactly when the undo left a non-empty trail, and it holds that trail. */
  lemma RollbackLogSaved(archive: seq<Written>, undone: Run<seq<AuditEntry>>, logPath: string)
    requires forall w :: w in archive ==> w.CsvFile?
    ensures var r := RollbackFinish(archive, undone, logPath);
            undone.Returned? ==>
              && ((exists w :: w in r.written && w.AuditLog?) <==> undone.value != [])
              && forall w :: w in r.written && w.AuditLog? ==> w.entries == undone.value
  {
    var r := RollbackFinish(archive, undone, logPath);
    if undone.Returned? && undone.value != [] {
      assert r.written[|archive|] == AuditLog(logPath, undone.value);
    }
  }

  /** With nothing to undo, the undo makes no request and the run returns True having written only the archive. */
  lemma RollbackNothingToUndo(u: DriveState, df: seq<Row>, live: seq<Row>, isLive: bool, now: string, rank: map<string, nat>,
                              archive: seq<Written>, logPath: string)
    requires Ranked(u.items, rank) && RollbackActions(Some(df), live) == Returned([])
    ensures UndoSpec(u, df, live, isLive, now, rank).0 == u
    ensures RollbackFinish(archive, UndoSpec(u, df, live, isLive, now, rank).1, logPath) == RunResult(Returned(true), archive)
  {
    assert archive + [] == archive;
  }

  /** _get_item_name(service, id) */
  method GetItemName(svc: DriveService, id: string) returns (name: string)
    modifies svc
    ensures svc.state == GetItem(old(svc.state), id).0 && name == NameOf(GetItem(old(svc.state), id).1)
  {
    var got := svc.Get(id);
    name := if got.Done? then got.value.name else "UnknownItem";
  }

  /** run_apply_changes, with the sheet already read (None when it cannot be). */
  method RunApplyChanges(svc: DriveService, sheet: Option<seq<Row>>, isLive: bool, override: string, stamp: string, now: string,
                         rank: map<string, nat>) returns (r: RunResult)
    requires Ranked(svc.state.items, rank)
    modifies svc
    ensures (svc.state, r) == ApplySpec(old(svc.state), sheet, isLive, override, stamp, now, rank)
  {
    var processed := ProcessChanges(svc, ExcelSheet(sheet), !isLive, None, now, rank);
    if processed.Raised? {
      return RunResult(Raised(processed.exception), []);
    }
    var (trail, found) := processed.value;
    var root := ResolveRoot(override, found);
    if root == "" || root == NoRootId {
      return RunResult(Returned(false), []);
    }
    if trail == [] {
      return RunResult(Returned(true), []);
    }
    var name := GetItemName(svc, root);
    name := SanitizeFilename(name);
    var report := GeneratePermissionReport(svc, root, "", rank);
    var written := CsvWrite("archives/" + stamp + "_apply_" + name + "_pre_changes.csv", report);
    written := written + [AuditLog("logs/" + stamp + "_apply_" + name + "_audit.csv", trail)];
    return RunResult(Returned(true), written);
  }

  /** run_rollback, with the log already read (None when it cannot be). */
  method RunRollback(svc: DriveService, log: Option<seq<Row>>, isLive: bool, override: string, stamp: string, now: string,
                     rank: map<string, nat>) returns (r: RunResult)
    requires Ranked(svc.state.items, rank)
    modifies svc
    ensures (svc.state, r) == RollbackSpec(old(svc.state), log, isLive, override, stamp, now, rank)
  {
    var root := RollbackRoot(log, override);
    if root.None? {
      return RunResult(Returned(false), []);
    }
    var name := GetItemName(svc, root.value);
    name := SanitizeFilename(name);
    var live := GeneratePermissionReport(svc, root.value, "", rank);
    var archive := CsvWrite("archives/" + stamp + "_rollback_" + name + "_pre_rollback.csv", live);
    var undone := UndoLog(svc, Frame(log.value), live, isLive, now, rank);
    r := RollbackFinish(archive, undone, "logs/" + stamp + "_rollback_" + name + "_audit.csv");
  }

  /** Lines 110-123 of run_rollback. */
  method UndoLog(svc: DriveService, df: seq<Row>, live: seq<Row>, isLive: bool, now: string, rank: map<string, nat>)
    returns (undone: Run<seq<AuditEntry>>)
    requires Ranked(svc.state.items, rank)
    modifies svc
    ensures (svc.state, undone) == UndoSpec(old(svc.state), df, live, isLive, now, rank)
  {
    var actions := GenerateRollbackActions(Some(df), live);
    if actions.Raised? {
      return Raised(actions.exception);
    }
    if actions.value == [] {
      return Returned([]);
    }
    var processed := ProcessChanges(svc, ExcelSheet(Some(TempSheet(actions.value))), !isLive, Some(live), now, rank);
    if processed.Raised? {
      return Raised(processed.exception);
    }
    return Returned(processed.value.0);
  }

  // ================================================================ the rollback round trip

  /** An Action_Type the sheet spells in capitals is its own command. */
  lemma CommandOfWord(row: Row)
    requires StrGet(row, "Action_Type") in ["ADD", "REMOVE", "MODIFY"]
    ensures Command(row) == StrGet(row, "Action_Type")
  {
    var w := StrGet(row, "Action_Type");
    StripNoSpace(w);
    assert Upper(w) == w;
  }

  /** The entry process_changes writes for an action row whose request succeeded. */
  function Succeeded(row: Row, root: string, now: string, details: string): AuditEntry {
    ActionEntry(row, root, now, false).(status := "SUCCESS", details := details)
  }

  /**
   * The action rollback makes from a logged successful action: the entry is
   * read back from the audit-log CSV, inverted, and read back again from the
   * temporary sheet.
   */
  function Inverse(e: AuditEntry, meta: map<string, ItemInfo>, root: string): Option<Row> {
    match RollbackOf(ReadBack(e.ToRow()), meta, root)
    case None => None
    case Some(a) => Some(TempRow(a))
  }

  /** The sheet row of the rollback of a logged ADD row. */
  lemma TempOfAdd(r: Row, meta: map<string, ItemInfo>, rootR: string)
    requires Get(r, "Action_Command") == "ADD"
    ensures RollbackOf(r, meta, rootR).Some?
    ensures var t := TempRow(RollbackOf(r, meta, rootR).value);
            && t.Keys == RollbackColumns
            && t["Action_Type"] == "REMOVE" && t["Item ID"] == NaRead(Get(r, "Item ID"))
            && t["Principal Type"] == NaRead(Get(r, "New_Principal_Type")) && t["Email Address"] == NaRead(Get(r, "New_Email_Address"))
            && t["Role"] == NaRead(Get(r, "New_Role"))
  {
    RollbackOfAdd(r, meta, rootR);
    RollbackColumnsPresent(r, meta, rootR);
    LiteralsRead();
  }

  /** The sheet row of the rollback of a logged REMOVE row. */
  lemma TempOfRemove(r: Row, meta: map<string, ItemInfo>, rootR: string)
    requires Get(r, "Action_Command") == "REMOVE"
    ensures RollbackOf(r, meta, rootR).Some?
    ensures var t := TempRow(RollbackOf(r, meta, rootR).value);
            && t.Keys == RollbackColumns
            && t["Action_Type"] == "ADD" && t["Item ID"] == NaRead(Get(r, "Item ID"))
            && t["Type (for ADD)"] == NaRead(Get(r, "Original_Principal_Type"))
            && t["Email/Domain (for ADD)"] == NaRead(Get(r, "Original_Email_Address"))
            && t["New_Role"] == NaRead(Get(r, "Original_Role"))
  {
    RollbackOfRemove(r, meta, rootR);
    RollbackColumnsPresent(r, meta, rootR);
    LiteralsRead();
  }

  /** The sheet row of the rollback of a logged MODIFY row. */
  lemma TempOfModify(r: Row, meta: map<string, ItemInfo>, rootR: string)
    requires Get(r, "Action_Command") == "MODIFY"
    ensures RollbackOf(r, meta, rootR).Some?
    ensures var t := TempRow(RollbackOf(r, meta, rootR).value);
            && t.Keys == RollbackColumns
            && t["Action_Type"] == "MODIFY" && t["Item ID"] == NaRead(Get(r, "Item ID"))
            && t["Principal Type"] == NaRead(Get(r, "Original_Principal_Type"))
            && t["Email Address"] == NaRead(Get(r, "Original_Email_Address"))
            && t["Role"] == NaRead(Get(r, "New_Role")) && t["New_Role"] == NaRead(Get(r, "Original_Role"))
  {
    RollbackOfModify(r, meta, rootR);
    RollbackColumnsPresent(r, meta, rootR);
    LiteralsRead();
  }

  /** Inverting a logged ADD entry, each cell read back from the log and from the sheet. */
  lemma InverseOfAdd(e: AuditEntry, meta: map<string, ItemInfo>, rootR: string)
    requires e.ActionLog? && e.command == "ADD"
    ensures var a := Inverse(e, meta, rootR);
            && a.Some? && a.value.Keys == RollbackColumns
            && a.value["Action_Type"] == "REMOVE" && a.value["Item ID"] == NaRead(e.itemId)
            && a.value["Principal Type"] == NaRead(e.newType) && a.value["Email Address"] == NaRead(e.newEmail)
            && a.value["Role"] == NaRead(e.newRole)
  {
    var x := e.ToRow();
    ToRowCells(e);
    GetReadBack(x, "Action_Command");
    LiteralsRead();
    ReadCells(x, ["Item ID", "New_Principal_Type", "New_Email_Address", "New_Role"]);
    TempOfAdd(ReadBack(x), meta, rootR);
  }

  /** Inverting a logged REMOVE entry, each cell read back from the log and from the sheet. */
  lemma InverseOfRemove(e: AuditEntry, meta: map<string, ItemInfo>, rootR: string)
    requires e.ActionLog? && e.command == "REMOVE"
    ensures var a := Inverse(e, meta, rootR);
            && a.Some? && a.value.Keys == RollbackColumns
            && a.value["Action_Type"] == "ADD" && a.value["Item ID"] == NaRead(e.itemId)
            && a.value["Type (for ADD)"] == NaRead(e.origType) && a.value["Email/Domain (for ADD)"] == NaRead(e.origEmail)
            && a.value["New_Role"] == NaRead(e.origRole)
  {
    var x := e.ToRow();
    ToRowCells(e);
    GetReadBack(x, "Action_Command");
    LiteralsRead();
    ReadCells(x, ["Item ID", "Original_Principal_Type", "Original_Email_Address", "Original_Role"]);
    TempOfRemove(ReadBack(x), meta, rootR);
  }

  /** Inverting a logged MODIFY entry, each cell read back from the log and from the sheet. */
  lemma InverseOfModify(e: AuditEntry, meta: map<string, ItemInfo>, rootR: string)
    requires e.ActionLog? && e.command == "MODIFY"
    ensures var a := Inverse(e, meta, rootR);
            && a.Some? && a.value.Keys == RollbackColumns
            && a.value["Action_Type"] == "MODIFY" && a.value["Item ID"] == NaRead(e.itemId)
            && a.value["Principal Type"] == NaRead(e.origType) && a.value["Email Address"] == NaRead(e.origEmail)
            && a.value["Role"] == NaRead(e.newRole) && a.value["New_Role"] == NaRead(e.origRole)
  {
    var x := e.ToRow();
    ToRowCells(e);
    GetReadBack(x, "Action_Command");
    LiteralsRead();
    ReadCells(x, ["Item ID", "Original_Principal_Type", "Original_Email_Address", "Original_Role", "New_Role"]);
    TempOfModify(ReadBack(x), meta, rootR);
  }

  /**
   * Rolling back a logged ADD gives a REMOVE of the principal and role the
   * row added, each cell as the log and the sheet read it back.
   */
  lemma UndoAdd(row: Row, root: string, now: string, d: string, meta: map<string, ItemInfo>, rootR: string)
    requires Command(row) == "ADD"
    ensures var a := Inverse(Succeeded(row, root, now, d), meta, rootR);
            && a.Some? && a.value.Keys == RollbackColumns
            && a.value["Action_Type"] == "REMOVE" && a.value["Item ID"] == NaRead(StrGet(row, "Item ID"))
            && a.value["Principal Type"] == NaRead(Get(row, "Type (for ADD)"))
            && a.value["Email Address"] == NaRead(Get(row, "Email/Domain (for ADD)"))
            && a.value["Role"] == NaRead(Get(row, "New_Role"))
  {
    InverseOfAdd(Succeeded(row, root, now, d), meta, rootR);
  }

  /**
   * Rolling back a logged REMOVE gives an ADD of the principal and role the
   * row removed, each cell as the log and the sheet read it back.
   */
  lemma UndoRemove(row: Row, root: string, now: string, d: string, meta: map<string, ItemInfo>, rootR: string)
    requires Command(row) == "REMOVE"
    ensures var a := Inverse(Succeeded(row, root, now, d), meta, rootR);
            && a.Some? && a.value.Keys == RollbackColumns
            && a.value["Action_Type"] == "ADD" && a.value["Item ID"] == NaRead(StrGet(row, "Item ID"))
            && a.value["Type (for ADD)"] == NaRead(Get(row, "Principal Type"))
            && a.value["Email/Domain (for ADD)"] == NaRead(Get(row, "Email Address"))
            && a.value["New_Role"] == NaRead(Get(row, "Role"))
  {
    InverseOfRemove(Succeeded(row, root, now, d), meta, rootR);
  }

  /**
   * Rolling back a logged MODIFY gives a MODIFY of the same principal with
   * the roles swapped, each cell as the log and the sheet read it back.
   */
  lemma UndoModify(row: Row, root: string, now: string, d: string, meta: map<string, ItemInfo>, rootR: string)
    requires Command(row) == "MODIFY"
    ensures var a := Inverse(Succeeded(row, root, now, d), meta, rootR);
            && a.Some? && a.value.Keys == RollbackColumns
            && a.value["Action_Type"] == "MODIFY" && a.value["Item ID"] == NaRead(StrGet(row, "Item ID"))
            && a.value["Principal Type"] == NaRead(Get(row, "Principal Type"))
            && a.value["Email Address"] == NaRead(Get(row, "Email Address"))
            && a.value["Role"] == NaRead(Get(row, "New_Role")) && a.value["New_Role"] == NaRead(Get(row, "Role"))
  {
    InverseOfModify(Succeeded(row, root, now, d), meta, rootR);
  }

  /** The listed cells of a row read back, read back once more, are as read back once. */
  lemma ReadCells(x: Row, cols: seq<string>)
    ensures forall c :: c in cols ==> Get(ReadBack(x), c) == NaRead(Get(x, c))
    ensures forall c :: c in cols ==> NaRead(Get(ReadBack(x), c)) == Get(ReadBack(x), c)
  {
    forall c | c in cols
      ensures Get(ReadBack(x), c) == NaRead(Get(x, c)) && NaRead(Get(ReadBack(x), c)) == Get(ReadBack(x), c)
    {
      GetReadBack(x, c);
      NaReadIdempotent(Get(x, c));
    }
  }

  /**
   * Logging an ADD, REMOVE or MODIFY row as successful, rolling it back,
   * logging that rollback as successful and rolling back again gives an
   * action with the original command, item and principal and role fields,
   * each as a file read gives it back: an NA marker cell comes back "".
   */
  lemma RollbackTwiceRestores(row: Row, root1: string, now1: string, d1: string, meta1: map<string, ItemInfo>, rootR1: string,
                              root2: string, now2: string, d2: string, meta2: map<string, ItemInfo>, rootR2: string)
    requires Command(row) in ["ADD", "REMOVE", "MODIFY"]
    ensures var a1 := Inverse(Succeeded(row, root1, now1, d1), meta1, rootR1);
            && a1.Some?
            && var a2 := Inverse(Succeeded(a1.value, root2, now2, d2), meta2, rootR2);
            && a2.Some?
            && a2.value["Action_Type"] == Command(row)
            && a2.value["Item ID"] == NaRead(StrGet(row, "Item ID"))
            && (Command(row) == "ADD" ==>
                  && a2.value["Type (for ADD)"] == NaRead(Get(row, "Type (for ADD)"))
                  && a2.value["Email/Domain (for ADD)"] == NaRead(Get(row, "Email/Domain (for ADD)"))
                  && a2.value["New_Role"] == NaRead(Get(row, "New_Role")))
            && (Command(row) in ["REMOVE", "MODIFY"] ==>
                  && a2.value["Principal Type"] == NaRead(Get(row, "Principal Type"))
                  && a2.value["Email Address"] == NaRead(Get(row, "Email Address"))
                  && a2.value["Role"] == NaRead(Get(row, "Role")))
            && (Command(row) == "MODIFY" ==> a2.value["New_Role"] == NaRead(Get(row, "New_Role")))
  {
    if Command(row) == "ADD" {
      RollbackTwiceAdd(row, root1, now1, d1, meta1, rootR1, root2, now2, d2, meta2, rootR2);
    } else if Command(row) == "REMOVE" {
      RollbackTwiceRemove(row, root1, now1, d1, meta1, rootR1, root2, now2, d2, meta2, rootR2);
    } else {
      RollbackTwiceModify(row, root1, now1, d1, meta1, rootR1, root2, now2, d2, meta2, rootR2);
    }
  }

  /**
   * For a row with an Item ID and no NA marker cell, the double rollback of
   * RollbackTwiceRestores gives back the row's own cells exactly.
   */
  lemma RollbackTwicePlain(row: Row, root1: string, now1: string, d1: string, meta1: map<string, ItemInfo>, rootR1: string,
                           root2: string, now2: string, d2: string, meta2: map<string, ItemInfo>, rootR2: string)
    requires Command(row) in ["ADD", "REMOVE", "MODIFY"]
    requires "Item ID" in row && NoNaCells(row)
    ensures var a1 := Inverse(Succeeded(row, root1, now1, d1), meta1, rootR1);
            && a1.Some?
            && var a2 := Inverse(Succeeded(a1.value, root2, now2, d2), meta2, rootR2);
            && a2.Some?
            && a2.value["Action_Type"] == Command(row)
            && a2.value["Item ID"] == row["Item ID"]
            && (Command(row) == "ADD" ==>
                  && a2.value["Type (for ADD)"] == Get(row, "Type (for ADD)")
                  && a2.value["Email/Domain (for ADD)"] == Get(row, "Email/Domain (for ADD)")
                  && a2.value["New_Role"] == Get(row, "New_Role"))
            && (Command(row) in ["REMOVE", "MODIFY"] ==>
                  && a2.value["Principal Type"] == Get(row, "Principal Type")
                  && a2.value["Email Address"] == Get(row, "Email Address")
                  && a2.value["Role"] == Get(row, "Role"))
            && (Command(row) == "MODIFY" ==> a2.value["New_Role"] == Get(row, "New_Role"))
  {
    PlainCell(row, "Item ID");
    PlainCell(row, "New_Role");
    if Command(row) == "ADD" {
      PlainCell(row, "Type (for ADD)");
      PlainCell(row, "Email/Domain (for ADD)");
      RollbackTwiceAdd(row, root1, now1, d1, meta1, rootR1, root2, now2, d2, meta2, rootR2);
    } else {
      PlainCell(row, "Principal Type");
      PlainCell(row, "Email Address");
      PlainCell(row, "Role");
      if Command(row) == "REMOVE" {
        RollbackTwiceRemove(row, root1, now1, d1, meta1, rootR1, root2, now2, d2, meta2, rootR2);
      } else {
        RollbackTwiceModify(row, root1, now1, d1, meta1, rootR1, root2, now2, d2, meta2, rootR2);
      }
    }
  }

  /** The round trip of an ADD: a REMOVE, then an ADD of the same principal and role. */
  lemma RollbackTwiceAdd(row: Row, root1: string, now1: string, d1: string, meta1: map<string, ItemInfo>, rootR1: string,
                         root2: string, now2: string, d2: string, meta2: map<string, ItemInfo>, rootR2: string)
    requires Command(row) == "ADD"
    ensures var a1 := Inverse(Succeeded(row, root1, now1, d1), meta1, rootR1);
            && a1.Some?
            && var a2 := Inverse(Succeeded(a1.value, root2, now2, d2), meta2, rootR2);
            && a2.Some? && a2.value["Action_Type"] == "ADD" && a2.value["Item ID"] == NaRead(StrGet(row, "Item ID"))
            && a2.value["Type (for ADD)"] == NaRead(Get(row, "Type (for ADD)"))
            && a2.value["Email/Domain (for ADD)"] == NaRead(Get(row, "Email/Domain (for ADD)"))
            && a2.value["New_Role"] == NaRead(Get(row, "New_Role"))
  {
    var a1 := Inverse(Succeeded(row, root1, now1, d1), meta1, rootR1);
    UndoAdd(row, root1, now1, d1, meta1, rootR1);
    LiteralsRead();
    CommandOfWord(a1.value);
    UndoRemove(a1.value, root2, now2, d2, meta2, rootR2);
    NaReadIdempotent(StrGet(row, "Item ID"));
    NaReadIdempotent(Get(row, "Type (for ADD)"));
    NaReadIdempotent(Get(row, "Email/Domain (for ADD)"));
    NaReadIdempotent(Get(row, "New_Role"));
  }

  /** The round trip of a REMOVE: an ADD, then a REMOVE of the same principal and role. */
  lemma RollbackTwiceRemove(row: Row, root1: string, now1: string, d1: string, meta1: map<string, ItemInfo>, rootR1: string,
                            root2: string, now2: string, d2: string, meta2: map<string, ItemInfo>, rootR2: string)
    requires Command(row) == "REMOVE"
    ensures var a1 := Inverse(Succeeded(row, root1, now1, d1), meta1, rootR1);
            && a1.Some?
            && var a2 := Inverse(Succeeded(a1.value, root2, now2, d2), meta2, rootR2);
            && a2.Some? && a2.value["Action_Type"] == "REMOVE" && a2.value["Item ID"] == NaRead(StrGet(row, "Item ID"))
            && a2.value["Principal Type"] == NaRead(Get(row, "Principal Type"))
            && a2.value["Email Address"] == NaRead(Get(row, "Email Address"))
            && a2.value["Role"] == NaRead(Get(row, "Role"))
  {
    var a1 := Inverse(Succeeded(row, root1, now1, d1), meta1, rootR1);
    UndoRemove(row, root1, now1, d1, meta1, rootR1);
    LiteralsRead();
    CommandOfWord(a1.value);
    UndoAdd(a1.value, root2, now2, d2, meta2, rootR2);
    NaReadIdempotent(StrGet(row, "Item ID"));
    NaReadIdempotent(Get(row, "Principal Type"));
    NaReadIdempotent(Get(row, "Email Address"));
    NaReadIdempotent(Get(row, "Role"));
  }

  /** The round trip of a MODIFY: the roles swapped, then swapped back. */
  lemma RollbackTwiceModify(row: Row, root1: string, now1: string, d1: string, meta1: map<string, ItemInfo>, rootR1: string,
                            root2: string, now2: string, d2: string, meta2: map<string, ItemInfo>, rootR2: string)
    requires Command(row) == "MODIFY"
    ensures var a1 := Inverse(Succeeded(row, root1, now1, d1), meta1, rootR1);
            && a1.Some?
            && var a2 := Inverse(Succeeded(a1.value, root2, now2, d2), meta2, rootR2);
            && a2.Some? && a2.value["Action_Type"] == "MODIFY" && a2.value["Item ID"] == NaRead(StrGet(row, "Item ID"))
            && a2.value["Principal Type"] == NaRead(Get(row, "Principal Type"))
            && a2.value["Email Address"] == NaRead(Get(row, "Email Address"))
            && a2.value["Role"] == NaRead(Get(row, "Role")) && a2.value["New_Role"] == NaRead(Get(row, "New_Role"))
  {
    var a1 := Inverse(Succeeded(row, root1, now1, d1), meta1, rootR1);
    UndoModify(row, root1, now1, d1, meta1, rootR1);
    LiteralsRead();
    CommandOfWord(a1.value);
    UndoModify(a1.value, root2, now2, d2, meta2, rootR2);
    NaReadIdempotent(StrGet(row, "Item ID"));
    NaReadIdempotent(Get(row, "Principal Type"));
    NaReadIdempotent(Get(row, "Email Address"));
    NaReadIdempotent(Get(row, "Role"));
    NaReadIdempotent(Get(row, "New_Role"));
  }

  // ================================================================ report rows and the rollback path

  /**
   * As written, report rows have neither "Root Folder ID" nor "Restrict
   * Download": a rollback whose log has a successful entry then stops with a
   * KeyError as soon as the live report has a row.
   */
  lemma RollbackRaisesOnReportAsWritten(log: seq<Row>, live: seq<Row>, ls: seq<Listed>, ps: seq<Permission>)
    requires HasColumn(log, "Status") && HasSuccess(log)
    requires live != [] && |ls| == |live| && |ps| == |live|
    requires forall i :: 0 <= i < |live| ==> live[i] == ReportRowAsWritten(ls[i], ps[i])
    ensures RollbackActions(Some(log), live) == Raised(KeyError("Root Folder ID"))
  {
    forall r | r in live
      ensures "Item ID" in r && "Item Name" in r && "Full Path" in r
    {
      var i :| 0 <= i < |live| && live[i] == r;
    }
  }

  /**
   * As written, the Restrict Download analysis of a sheet with that column
   * stops with a KeyError as soon as the live report has a row.
   */
  lemma RestrictRaisesOnReportAsWritten(t: DriveState, df: seq<Row>, report: seq<Row>, ls: seq<Listed>, ps: seq<Permission>,
                                        root: string, dryRun: bool, now: string)
    requires HasColumn(df, RD)
    requires report != [] && |ls| == |report| && |ps| == |report|
    requires forall i :: 0 <= i < |report| ==> report[i] == ReportRowAsWritten(ls[i], ps[i])
    ensures RestrictPhase(t, df, report, root, dryRun, now) == (t, Raised(KeyError(RD)))
  {
    assert report[0] in report;
    forall r | r in report
      ensures RD !in r
    {
      var i :| 0 <= i < |report| && report[i] == r;
    }
  }

  /**
   * With the report rows the rollback path expects and a log whose entries
   * have every column the loop reads, generate_rollback_actions returns, and
   * every action it returns has the twelve columns and names the reported
   * folder as its root ("" for an empty report).
   */
  lemma RollbackOnReport(s: DriveState, folder: string, rank: map<string, nat>, log: Option<seq<Row>>)
    requires Ranked(s.items, rank)
    requires log.Some? ==> forall e :: e in log.value ==> LogColumns <= e.Keys
    ensures var live := PermissionReport(s, folder, "", rank).1;
            var r := RollbackActions(log, live);
            && r.Returned?
            && forall a :: a in r.value ==> a.Keys == RollbackColumns && a["Root Folder ID"] == (if live == [] then "" else folder)
  {
    var live := PermissionReport(s, folder, "", rank).1;
    PermissionReportCarriesRoot(s, folder, "", rank);
    if log.Some? && HasColumn(log.value, "Status") && HasSuccess(log.value) {
      if live != [] {
        assert live[0] in live;
      }
      var root := if live == [] then "" else live[0]["Root Folder ID"];
      LogComplete(log.value);
      RollbackListRoot(log.value, |log.value|, Metadata(live, |live|), root);
    }
  }

  /**
   * With the report rows the Restrict Download analysis expects, it never
   * stops for a column the report lacks.
   */
  lemma RestrictOnReport(t: DriveState, s: DriveState, folder: string, rank: map<string, nat>, df: seq<Row>,
                         dryRun: bool, now: string)
    requires Ranked(s.items, rank)
    requires HasColumn(df, "Item ID")
    ensures RestrictPhase(t, df, PermissionReport(s, folder, "", rank).1, folder, dryRun, now).1.Returned?
  {
    var report := PermissionReport(s, folder, "", rank).1;
    PermissionReportCarriesRoot(s, folder, "", rank);
    if report != [] {
      assert report[0] in report;
    }
  }
}
