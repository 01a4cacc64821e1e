/**
 * The permission report of src/report_generator.py: a recursive listing of
 * a folder tree with paths, a bounded-retry permission fetch per item, and
 * one report row per permission.
 */
module ReportGenerator {
  import opened Wrappers
  import opened Text
  import opened Config
  import opened Drive
  import opened Rows

  /** HTTP statuses after which a request is retried. */
  const RetryStatuses: set<int> := {403, 429, 500, 502, 503, 504}

  /** The default `max_retries`, the value every caller in the source uses. */
  const MaxRetries: nat := 5

  const PageSize: nat := 1000

  /** An item the listing returned, with the path it was given. */
  datatype Listed = Listed(item: Item, path: string)

  predicate EndsWith(s: string, suffix: string) {
    |suffix| <= |s| && s[|s| - |suffix|..] == suffix
  }

  // ---------------------------------------------------------------- get_file_permissions

  /**
   * get_file_permissions, from attempt number `retries` on: the item's
   * permissions, or [] after a non-retryable error or once `maxRetries`
   * attempts have failed.
   */
  function FetchPermissions(s: DriveState, id: string, maxRetries: nat, retries: nat): (r: (DriveState, seq<Permission>))
    ensures SameContents(r.0, s)
    ensures r.0.calls <= s.calls + (if retries < maxRetries then maxRetries - retries else 0)
    ensures r.1 == [] || r.1 == PermsOf(s, id)
    decreases maxRetries - retries
  {
    if retries >= maxRetries then (s, [])
    else
      var (t, reply) := ListPermissions(s, id);
      match reply
      case Done(ps) => (t, ps)
      case Failed(st) =>
        if st in RetryStatuses then FetchPermissions(t, id, maxRetries, retries + 1) else (t, [])
  }

  /** An error outside the retry set ends the fetch after that one request, with []. */
  lemma FetchStopsOnOtherErrors(s: DriveState, id: string, maxRetries: nat)
    requires maxRetries > 0 && s.answers != [] && s.answers[0].HttpError? && s.answers[0].status !in RetryStatuses
    ensures FetchPermissions(s, id, maxRetries, 0).1 == []
    ensures FetchPermissions(s, id, maxRetries, 0).0.calls == s.calls + 1
  {
  }

  /** A server that answers without error yields the item's permissions in one request. */
  lemma FetchSucceedsFirstTime(s: DriveState, id: string, maxRetries: nat)
    requires maxRetries > 0 && (s.answers == [] || s.answers[0].Ok?) && FindItem(s.items, id).Some?
    ensures FetchPermissions(s, id, maxRetries, 0).1 == PermsOf(s, id)
    ensures FetchPermissions(s, id, maxRetries, 0).0.calls == s.calls + 1
  {
  }

  method GetFilePermissions(svc: DriveService, id: string, maxRetries: nat) returns (ps: seq<Permission>)
    modifies svc
    ensures (svc.state, ps) == FetchPermissions(old(svc.state), id, maxRetries, 0)
  {
    var retries := 0;
    while retries < maxRetries
      invariant retries <= maxRetries
      invariant FetchPermissions(old(svc.state), id, maxRetries, 0) == FetchPermissions(svc.state, id, maxRetries, retries)
      decreases maxRetries - retries
    {
      var reply := svc.ListPerms(id);
      match reply
      case Done(v) =>
        return v;
      case Failed(st) =>
        if st in RetryStatuses {
          retries := retries + 1;
        } else {
          return [];
        }
    }
    return [];
  }

  // ---------------------------------------------------------------- list_files_recursively

  /** What every listed entry under `folder` satisfies. */
  predicate ListedUnder(l: Listed, items: seq<Item>, folder: string, prefix: string, rank: map<string, nat>) {
    && l.item in items
    && !l.item.trashed
    && l.item.id in rank && l.item.id != folder
    && rank[l.item.id] < ItemRank(folder, rank)
    && prefix <= l.path
    && EndsWith(l.path, "/" + l.item.name)
  }

  /**
   * list_files_recursively(folder, parentPath): the folder's own path is
   * parentPath + '/' + its name, read with files.get; nothing is listed when
   * that fails. Every listed item lies strictly below the folder, and its
   * path extends the folder's path.
   */
  function ListFolder(s: DriveState, folder: string, parentPath: string, rank: map<string, nat>): (r: (DriveState, seq<Listed>))
    requires Ranked(s.items, rank)
    ensures SameContents(r.0, s)
    ensures GetItem(s, folder).1.Failed? ==> r.1 == []
    decreases ItemRank(folder, rank), 2, 0, 0
  {
    var (t, reply) := GetItem(s, folder);
    match reply
    case Failed(_) => (t, [])
    case Done(it) => ListPages(t, folder, parentPath + "/" + it.name, 0, 0, rank)
  }

  /**
   * The page loop, from the page at `offset`: a retryable error is retried
   * while fewer than MaxRetries consecutive retries were made, any other
   * error ends the listing, and a good page resets the retry count.
   */
  function ListPages(s: DriveState, folder: string, path: string, offset: nat, retries: nat, rank: map<string, nat>): (r: (DriveState, seq<Listed>))
    requires Ranked(s.items, rank) && retries <= MaxRetries
    ensures SameContents(r.0, s)
    decreases ItemRank(folder, rank), 1, |ChildrenOf(s.items, folder, true)| - offset, MaxRetries - retries
  {
    var (t, reply) := ListChildren(s, folder, true, offset, PageSize);
    match reply
    case Failed(st) =>
      if st in RetryStatuses && retries < MaxRetries then ListPages(t, folder, path, offset, retries + 1, rank) else (t, [])
    case Done(page) =>
      var (u, listed) := ListEntries(t, folder, path, page.entries, |page.entries|, rank);
      match page.next
      case None => (u, listed)
      case Some(next) =>
        var (v, more) := ListPages(u, folder, path, next, 0, rank);
        (v, listed + more)
  }

  /** The state after, and the listing of, the first n entries of one page, each followed by its subtree if it is a folder. */
  function ListEntries(s: DriveState, folder: string, path: string, entries: seq<Item>, n: nat, rank: map<string, nat>): (r: (DriveState, seq<Listed>))
    requires Ranked(s.items, rank) && n <= |entries|
    requires forall e :: e in entries ==> e in ChildrenOf(s.items, folder, true)
    ensures SameContents(r.0, s)
    decreases ItemRank(folder, rank), 0, n
  {
    if n == 0 then (s, [])
    else
      var (t, listed) := ListEntries(s, folder, path, entries, n - 1, rank);
      var it := entries[n - 1];
      ChildBelow(s.items, rank, folder, true, entries, n - 1);
      var (u, sub) := if IsFolder(it) then ListFolder(t, it.id, path, rank) else (t, []);
      (u, listed + [Listed(it, path + "/" + it.name)] + sub)
  }

  /**
   * Everything list_files_recursively returns lies strictly below the folder
   * (so the folder itself is never listed), is not trashed, and has a path
   * that extends the folder's own path and ends with '/' and its name.
   */
  lemma {:induction false} ListFolderBelow(s: DriveState, folder: string, parentPath: string, rank: map<string, nat>)
    requires Ranked(s.items, rank)
    ensures GetItem(s, folder).1.Done? ==>
              forall l :: l in ListFolder(s, folder, parentPath, rank).1 ==>
                ListedUnder(l, s.items, folder, parentPath + "/" + GetItem(s, folder).1.value.name + "/", rank)
    decreases ItemRank(folder, rank), 2, 0, 0
  {
    var (t, reply) := GetItem(s, folder);
    if reply.Done? {
      ListPagesBelow(t, folder, parentPath + "/" + reply.value.name, 0, 0, rank);
    }
  }

  lemma {:induction false} ListPagesBelow(s: DriveState, folder: string, path: string, offset: nat, retries: nat, rank: map<string, nat>)
    requires Ranked(s.items, rank) && retries <= MaxRetries
    ensures forall l :: l in ListPages(s, folder, path, offset, retries, rank).1 ==> ListedUnder(l, s.items, folder, path + "/", rank)
    decreases ItemRank(folder, rank), 1, |ChildrenOf(s.items, folder, true)| - offset, MaxRetries - retries
  {
    var (t, reply) := ListChildren(s, folder, true, offset, PageSize);
    match reply
    case Failed(st) =>
      if st in RetryStatuses && retries < MaxRetries {
        ListPagesBelow(t, folder, path, offset, retries + 1, rank);
      }
    case Done(page) =>
      ListEntriesBelow(t, folder, path, page.entries, |page.entries|, rank);
      var u := ListEntries(t, folder, path, page.entries, |page.entries|, rank).0;
      if page.next.Some? {
        ListPagesBelow(u, folder, path, page.next.value, 0, rank);
      }
  }

  lemma {:induction false} ListEntriesBelow(s: DriveState, folder: string, path: string, entries: seq<Item>, n: nat, rank: map<string, nat>)
    requires Ranked(s.items, rank) && n <= |entries|
    requires forall e :: e in entries ==> e in ChildrenOf(s.items, folder, true)
    ensures forall l :: l in ListEntries(s, folder, path, entries, n, rank).1 ==> ListedUnder(l, s.items, folder, path + "/", rank)
    decreases ItemRank(folder, rank), 0, n
  {
    if n > 0 {
      ListEntriesBelow(s, folder, path, entries, n - 1, rank);
      var before := ListEntries(s, folder, path, entries, n - 1, rank);
      var t, listed := before.0, before.1;
      var it := entries[n - 1];
      ChildBelow(s.items, rank, folder, true, entries, n - 1);
      var entry := Listed(it, path + "/" + it.name);
      var sub := if IsFolder(it) then ListFolder(t, it.id, path, rank).1 else [];
      assert ListEntries(s, folder, path, entries, n, rank).1 == listed + [entry] + sub;
      assert ListedUnder(entry, s.items, folder, path + "/", rank) by {
        assert it in entries;
        ChildPath(path, it.name);
      }
      if IsFolder(it) {
        ListFolderBelow(t, it.id, path, rank);
        SubfolderBelow(s.items, folder, path, it, GetItem(t, it.id).1, sub, rank);
      }
      UnderConcat(listed, entry, sub, s.items, folder, path + "/", rank);
    }
  }

  lemma UnderConcat(listed: seq<Listed>, entry: Listed, sub: seq<Listed>, items: seq<Item>, folder: string, prefix: string, rank: map<string, nat>)
    requires forall l :: l in listed ==> ListedUnder(l, items, folder, prefix, rank)
    requires ListedUnder(entry, items, folder, prefix, rank)
    requires forall l :: l in sub ==> ListedUnder(l, items, folder, prefix, rank)
    ensures forall l :: l in listed + [entry] + sub ==> ListedUnder(l, items, folder, prefix, rank)
  {
    forall l | l in listed + [entry] + sub
      ensures ListedUnder(l, items, folder, prefix, rank)
    {
      assert l in listed || l == entry || l in sub;
    }
  }

  /** A child's path extends its folder's path and a '/', and ends with '/' and the child's name. */
  lemma ChildPath(path: string, name: string)
    ensures path + "/" <= path + "/" + name
    ensures EndsWith(path + "/" + name, "/" + name)
  {
    assert path + "/" + name == (path + "/") + name;
    assert (path + "/" + name)[|path|..] == "/" + name;
  }

  /** What is listed inside a subfolder is listed under its parent too. */
  lemma SubfolderBelow(items: seq<Item>, folder: string, path: string, it: Item, got: Reply<Item>, sub: seq<Listed>, rank: map<string, nat>)
    requires it.id in rank && ItemRank(it.id, rank) < ItemRank(folder, rank)
    requires got.Done? ==> forall l :: l in sub ==> ListedUnder(l, items, it.id, path + "/" + got.value.name + "/", rank)
    requires got.Failed? ==> sub == []
    ensures forall l :: l in sub ==> ListedUnder(l, items, folder, path + "/", rank)
  {
    if got.Done? {
      forall l | l in sub
        ensures ListedUnder(l, items, folder, path + "/", rank)
      {
        var p := path + "/" + got.value.name + "/";
        assert (path + "/") <= p;
      }
    }
  }

  /** A page request that failed: retried, or the end of the listing. */
  lemma ListPagesFailed(s: DriveState, folder: string, path: string, offset: nat, retries: nat, rank: map<string, nat>)
    requires Ranked(s.items, rank) && retries <= MaxRetries
    requires ListChildren(s, folder, true, offset, PageSize).1.Failed?
    ensures var t := ListChildren(s, folder, true, offset, PageSize).0;
            ListPages(s, folder, path, offset, retries, rank)
            == if ListChildren(s, folder, true, offset, PageSize).1.status in RetryStatuses && retries < MaxRetries
               then ListPages(t, folder, path, offset, retries + 1, rank)
               else (t, [])
  {
  }

  /** A page that came back: its entries' listing, then the following pages. */
  lemma ListPagesDone(s: DriveState, folder: string, path: string, offset: nat, retries: nat, rank: map<string, nat>, u: DriveState, listed: seq<Listed>)
    requires Ranked(s.items, rank) && retries <= MaxRetries
    requires ListChildren(s, folder, true, offset, PageSize).1.Done?
    requires var lc := ListChildren(s, folder, true, offset, PageSize);
             (u, listed) == ListEntries(lc.0, folder, path, lc.1.value.entries, |lc.1.value.entries|, rank)
    ensures var next := ListChildren(s, folder, true, offset, PageSize).1.value.next;
            ListPages(s, folder, path, offset, retries, rank)
            == if next.None? then (u, listed)
               else (ListPages(u, folder, path, next.value, 0, rank).0, listed + ListPages(u, folder, path, next.value, 0, rank).1)
  {
  }

  method ListFilesRecursively(svc: DriveService, folder: string, currentPath: string, rank: map<string, nat>) returns (all: seq<Listed>)
    requires Ranked(svc.state.items, rank)
    modifies svc
    ensures (svc.state, all) == ListFolder(old(svc.state), folder, currentPath, rank)
    decreases ItemRank(folder, rank), 3
  {
    var g := svc.Get(folder);
    if g.Failed? {
      return [];
    }
    all := ListFolderPages(svc, folder, currentPath + "/" + g.value.name, rank);
  }

  /** The page loop of list_files_recursively, with its retry counter. */
  method ListFolderPages(svc: DriveService, folder: string, path: string, rank: map<string, nat>) returns (all: seq<Listed>)
    requires Ranked(svc.state.items, rank)
    modifies svc
    ensures (svc.state, all) == ListPages(old(svc.state), folder, path, 0, 0, rank)
    decreases ItemRank(folder, rank), 2
  {
    ghost var items := svc.state.items;
    ghost var target := ListPages(svc.state, folder, path, 0, 0, rank);
    all := [];
    assert all + target.1 == target.1;
    var offset: nat := 0;
    var retries: nat := 0;
    var done := false;
    while !done
      invariant svc.state.items == items && retries <= MaxRetries
      invariant target == if done then (svc.state, all)
                          else (ListPages(svc.state, folder, path, offset, retries, rank).0,
                                all + ListPages(svc.state, folder, path, offset, retries, rank).1)
      decreases !done, |ChildrenOf(items, folder, true)| - offset, MaxRetries - retries
    {
      var pageRows, next, retry := ListOnePage(svc, folder, path, offset, retries, rank);
      if retry {
        retries := retries + 1;
      } else if next.None? {
        all := all + pageRows;
        done := true;
      } else {
        ghost var more := ListPages(svc.state, folder, path, next.value, 0, rank).1;
        ConcatAssoc(all, pageRows, more);
        all := all + pageRows;
        offset := next.value;
        retries := 0;
      }
    }
  }

  /**
   * One files.list call of the page loop: a failure to retry, or the page's
   * listing and where the next page starts (None when this was the last page
   * or the call failed for good).
   */
  method ListOnePage(svc: DriveService, folder: string, path: string, offset: nat, retries: nat, rank: map<string, nat>)
    returns (pageRows: seq<Listed>, next: Option<nat>, retry: bool)
    requires Ranked(svc.state.items, rank) && retries <= MaxRetries
    modifies svc
    ensures svc.state.items == old(svc.state.items)
    ensures retry ==> retries < MaxRetries
                      && ListPages(old(svc.state), folder, path, offset, retries, rank) == ListPages(svc.state, folder, path, offset, retries + 1, rank)
    ensures !retry && next.None? ==> ListPages(old(svc.state), folder, path, offset, retries, rank) == (svc.state, pageRows)
    ensures !retry && next.Some? ==>
              && offset < next.value < |ChildrenOf(svc.state.items, folder, true)|
              && ListPages(old(svc.state), folder, path, offset, retries, rank).0 == ListPages(svc.state, folder, path, next.value, 0, rank).0
              && ListPages(old(svc.state), folder, path, offset, retries, rank).1 == pageRows + ListPages(svc.state, folder, path, next.value, 0, rank).1
    decreases ItemRank(folder, rank), 1
  {
    ghost var before := svc.state;
    var reply := svc.List(folder, true, offset, PageSize);
    match reply {
      case Failed(st) =>
        ListPagesFailed(before, folder, path, offset, retries, rank);
        retry := st in RetryStatuses && retries < MaxRetries;
        pageRows, next := [], None;
      case Done(page) =>
        pageRows := ListPageEntries(svc, folder, path, page.entries, rank);
        ListPagesDone(before, folder, path, offset, retries, rank, svc.state, pageRows);
        retry, next := false, page.next;
    }
  }

  /** The loop over the entries of one page, recursing into folders. */
  method ListPageEntries(svc: DriveService, folder: string, path: string, entries: seq<Item>, rank: map<string, nat>) returns (listed: seq<Listed>)
    requires Ranked(svc.state.items, rank)
    requires forall e :: e in entries ==> e in ChildrenOf(svc.state.items, folder, true)
    modifies svc
    ensures (svc.state, listed) == ListEntries(old(svc.state), folder, path, entries, |entries|, rank)
    decreases ItemRank(folder, rank), 0
  {
    ghost var items := svc.state.items;
    listed := [];
    var j := 0;
    while j < |entries|
      invariant j <= |entries| && svc.state.items == items
      invariant (svc.state, listed) == ListEntries(old(svc.state), folder, path, entries, j, rank)
    {
      var it := entries[j];
      ChildBelow(items, rank, folder, true, entries, j);
      ghost var before := svc.state;
      listed := listed + [Listed(it, path + "/" + it.name)];
      if IsFolder(it) {
        var sub := ListFilesRecursively(svc, it.id, path, rank);
        assert ListEntries(old(svc.state), folder, path, entries, j + 1, rank) == (svc.state, listed + sub);
        listed := listed + sub;
      } else {
        assert ListEntries(old(svc.state), folder, path, entries, j + 1, rank) == (before, listed + []);
        assert listed + [] == listed;
      }
      j := j + 1;
    }
  }

  // ---------------------------------------------------------------- generate_permission_report

  /** The Email Address cell: emailAddress, else domain, else 'anyoneWithLink' for anyone, else 'N/A'. */
  function EmailCell(p: Permission): (r: string)
    ensures r != ""
    ensures p.emailAddress != "" ==> r == p.emailAddress
    ensures p.emailAddress == "" && p.domain != "" ==> r == p.domain
    ensures p.emailAddress == "" && p.domain == "" ==> r == (if p.kind == "anyone" then "anyoneWithLink" else "N/A")
  {
    if p.emailAddress != "" then p.emailAddress
    else if p.domain != "" then p.domain
    else if p.kind == "anyone" then "anyoneWithLink"
    else "N/A"
  }

  /** The Role cell: the UI name of a known API role, the capitalised raw role otherwise. */
  function RoleCell(role: string): (r: string)
    ensures role in RoleMap ==> r == RoleMap[role] && r in ReverseRoleMap && ReverseRoleMap[r] == role
    ensures role !in RoleMap ==> r == Capitalize(role)
  {
    if role in RoleMap then
      ReverseAfterForward(role);
      RoleMap[role]
    else Capitalize(role)
  }

  /** The first owner's email address, or 'N/A'. */
  function OwnerCell(it: Item): (r: string)
    ensures r != ""
    ensures r != "N/A" ==> it.owners != [] && r == it.owners[0]
  {
    if it.owners != [] && it.owners[0] != "" then it.owners[0] else "N/A"
  }

  /** The ten columns a report row has as the source builds it. */
  function ReportRowAsWritten(l: Listed, p: Permission): (row: Row)
    ensures "Root Folder ID" !in row && "Restrict Download" !in row
    ensures row.Keys == {"Item Name", "Item ID", "Full Path", "Owner", "Principal Type", "Email Address",
                         "Role", "Allow Discovery", "Expiration Time", "Google Drive URL"}
  {
    map[
      "Item Name" := l.item.name,
      "Item ID" := l.item.id,
      "Full Path" := l.path,
      "Owner" := OwnerCell(l.item),
      "Principal Type" := p.kind,
      "Email Address" := EmailCell(p),
      "Role" := RoleCell(p.role),
      "Allow Discovery" := p.allowFileDiscovery.GetOr("N/A"),
      "Expiration Time" := p.expirationTime.GetOr("N/A"),
      "Google Drive URL" := l.item.webViewLink
    ]
  }

  function FlagText(b: bool): string { if b then "TRUE" else "FALSE" }

  /**
   * A report row as the rollback path reads it: the ten columns plus the
   * report's root folder id and the item's download restriction.
   */
  function ReportRow(l: Listed, p: Permission, root: string, restricted: bool): (row: Row)
    ensures forall c :: c in ReportRowAsWritten(l, p) ==> c in row && row[c] == ReportRowAsWritten(l, p)[c]
    ensures row.Keys == ReportRowAsWritten(l, p).Keys + {"Root Folder ID", "Restrict Download"}
    ensures row["Root Folder ID"] == root && (row["Restrict Download"] == "TRUE" <==> restricted)
  {
    ReportRowAsWritten(l, p)["Root Folder ID" := root]["Restrict Download" := FlagText(restricted)]
  }

  /**
   * A report row describes one permission of one item: where the item is,
   * who the principal is, and the role's UI name.
   */
  lemma ReportRowCells(l: Listed, p: Permission, root: string, restricted: bool)
    ensures var row := ReportRow(l, p, root, restricted);
            && row["Item ID"] == l.item.id && row["Full Path"] == l.path && row["Item Name"] == l.item.name
            && row["Principal Type"] == p.kind && row["Email Address"] == EmailCell(p) && row["Role"] == RoleCell(p.role)
            && row["Root Folder ID"] == root && row["Restrict Download"] == FlagText(restricted)
  {
  }

  /** The any() over the permissions: some email address equals userEmail ignoring case. */
  function HasUserAccess(ps: seq<Permission>, userEmail: string): (r: bool)
    ensures r <==> exists p :: p in ps && Lower(p.emailAddress) == Lower(userEmail)
  {
    if ps == [] then false
    else
      assert forall p :: p in ps <==> p == ps[0] || p in ps[1..];
      Lower(ps[0].emailAddress) == Lower(userEmail) || HasUserAccess(ps[1..], userEmail)
  }

  /**
   * The rows one listed item contributes: none when it has no permissions or
   * the user filter excludes it, otherwise one per permission, in order.
   */
  function ItemRows(l: Listed, ps: seq<Permission>, root: string, restricted: bool, userEmail: string): (rows: seq<Row>)
    ensures rows != [] <==> ps != [] && (userEmail == "" || HasUserAccess(ps, userEmail))
    ensures rows != [] ==> |rows| == |ps| && forall k :: 0 <= k < |ps| ==> rows[k] == ReportRow(l, ps[k], root, restricted)
  {
    if ps == [] || (userEmail != "" && !HasUserAccess(ps, userEmail)) then []
    else seq(|ps|, k requires 0 <= k < |ps| => ReportRow(l, ps[k], root, restricted))
  }

  /** The state after, and the report rows of, the first n listed items. */
  function ReportRows(s: DriveState, listed: seq<Listed>, n: nat, root: string, userEmail: string): (r: (DriveState, seq<Row>))
    requires n <= |listed|
    ensures SameContents(r.0, s)
  {
    if n == 0 then (s, [])
    else
      var (t, rows) := ReportRows(s, listed, n - 1, root, userEmail);
      var (u, ps) := FetchPermissions(t, listed[n - 1].item.id, MaxRetries, 0);
      (u, rows + ItemRows(listed[n - 1], ps, root, RestrictedOf(u, listed[n - 1].item.id), userEmail))
  }

  /** What the rollback path reads from a report row: the item's id, name, path and restriction, and the report's root id. */
  predicate RowOfReport(row: Row, root: string) {
    && "Item ID" in row && "Item Name" in row && "Full Path" in row && "Restrict Download" in row
    && "Root Folder ID" in row && row["Root Folder ID"] == root
  }

  /** The rows of one item carry the columns the rollback path reads, and the report's root id. */
  lemma ItemRowsCarryRoot(l: Listed, ps: seq<Permission>, root: string, restricted: bool, userEmail: string)
    ensures forall row :: row in ItemRows(l, ps, root, restricted, userEmail) ==> RowOfReport(row, root)
  {
    var more := ItemRows(l, ps, root, restricted, userEmail);
    forall row | row in more
      ensures RowOfReport(row, root)
    {
      var k :| 0 <= k < |more| && more[k] == row;
      ReportRowCells(l, ps[k], root, restricted);
    }
  }

  /** Every report row carries the columns the rollback path reads, and the report's root id. */
  lemma {:induction false} ReportRowsCarryRoot(s: DriveState, listed: seq<Listed>, n: nat, root: string, userEmail: string)
    requires n <= |listed|
    ensures forall row :: row in ReportRows(s, listed, n, root, userEmail).1 ==> RowOfReport(row, root)
  {
    if n > 0 {
      ReportRowsCarryRoot(s, listed, n - 1, root, userEmail);
      var (t, rows) := ReportRows(s, listed, n - 1, root, userEmail);
      var (u, ps) := FetchPermissions(t, listed[n - 1].item.id, MaxRetries, 0);
      var more := ItemRows(listed[n - 1], ps, root, RestrictedOf(u, listed[n - 1].item.id), userEmail);
      ItemRowsCarryRoot(listed[n - 1], ps, root, RestrictedOf(u, listed[n - 1].item.id), userEmail);
      assert ReportRows(s, listed, n, root, userEmail).1 == rows + more;
      forall row | row in rows + more
        ensures RowOfReport(row, root)
      {
        if row !in rows {
          assert row in more;
        }
      }
    }
  }

  /** generate_permission_report(folder, userEmail) */
  function PermissionReport(s: DriveState, folder: string, userEmail: string, rank: map<string, nat>): (r: (DriveState, seq<Row>))
    requires Ranked(s.items, rank)
    ensures SameContents(r.0, s)
  {
    var (t, listed) := ListFolder(s, folder, "", rank);
    ReportRows(t, listed, |listed|, folder, userEmail)
  }

  /** The report of a folder is made of rows that name that folder as their root. */
  lemma PermissionReportCarriesRoot(s: DriveState, folder: string, userEmail: string, rank: map<string, nat>)
    requires Ranked(s.items, rank)
    ensures forall row :: row in PermissionReport(s, folder, userEmail, rank).1 ==> RowOfReport(row, folder)
  {
    var (t, listed) := ListFolder(s, folder, "", rank);
    ReportRowsCarryRoot(t, listed, |listed|, folder, userEmail);
  }

  method GeneratePermissionReport(svc: DriveService, folder: string, userEmail: string, rank: map<string, nat>) returns (report: seq<Row>)
    requires Ranked(svc.state.items, rank)
    modifies svc
    ensures (svc.state, report) == PermissionReport(old(svc.state), folder, userEmail, rank)
  {
    var listed := ListFilesRecursively(svc, folder, "", rank);
    report := ReportListedItems(svc, listed, folder, userEmail);
  }

  /** The loop of generate_permission_report over the listed items. */
  method ReportListedItems(svc: DriveService, listed: seq<Listed>, root: string, userEmail: string) returns (report: seq<Row>)
    modifies svc
    ensures (svc.state, report) == ReportRows(old(svc.state), listed, |listed|, root, userEmail)
  {
    ghost var s0 := svc.state;
    report := [];
    var j := 0;
    while j < |listed|
      invariant j <= |listed|
      invariant svc.state == ReportRows(s0, listed, j, root, userEmail).0
      invariant report == ReportRows(s0, listed, j, root, userEmail).1
    {
      ghost var before := svc.state;
      var ps := GetFilePermissions(svc, listed[j].item.id, MaxRetries);
      assert (svc.state, ps) == FetchPermissions(before, listed[j].item.id, MaxRetries, 0);
      report := report + ItemRows(listed[j], ps, root, RestrictedOf(svc.state, listed[j].item.id), userEmail);
      j := j + 1;
    }
  }
}
