/**
 * The permission-stripping script: starting at a folder, every permission
 * whose email matches one of the target emails (ignoring case) is deleted,
 * on the folder itself first and then on everything below it, and each
 * successful deletion is logged; the summary splits the log into folders
 * and files.
 */
module PermissionsRemover {
  import opened Wrappers
  import opened Text
  import opened Drive
  import opened Rows

  /** A delete is tried at most this many times. */
  const DeleteAttempts: nat := 5

  /** The statuses after which a delete is tried again. */
  const DeleteRetryStatuses: set<int> := {403, 429}

  /** The page size the Drive uses when the request names none; the listings this script makes do not depend on it. */
  const DefaultPageSize: nat := 100

  // ================================================================ list_permissions

  /**
   * The pages of an item's permissions from `offset` on, one request each,
   * concatenated; None once a request fails.
   */
  function PermPages(s: DriveState, id: string, offset: nat): (r: (DriveState, Option<seq<Permission>>))
    requires offset <= |PermsOf(s, id)|
    ensures SameContents(r.0, s)
    ensures r.1.Some? ==> r.1.value == PermsOf(s, id)[offset..]
    decreases |PermsOf(s, id)| - offset
  {
    var (t, reply) := ListPermissionsPage(s, id, offset, DefaultPageSize);
    match reply
    case Failed(_) => (t, None)
    case Done(page) =>
      match page.next
      case None => (t, Some(page.entries))
      case Some(next) =>
        var (u, more) := PermPages(t, id, next);
        if more.None? then (u, None)
        else
          assert PermsOf(s, id)[offset..] == page.entries + PermsOf(s, id)[next..];
          (u, Some(page.entries + more.value))
  }

  /** list_permissions: every permission of the item, or [] when any page request fails. */
  function ListPerms(s: DriveState, id: string): (r: (DriveState, seq<Permission>))
    ensures SameContents(r.0, s)
    ensures r.1 == [] || r.1 == PermsOf(s, id)
  {
    var (t, pages) := PermPages(s, id, 0);
    (t, if pages.None? then [] else pages.value)
  }

  /** A failed page after a successful one still gives []: what was fetched is discarded. */
  lemma ListPermsDiscards(s: DriveState, id: string, status: int)
    requires |PermsOf(s, id)| > DefaultPageSize && FindItem(s.items, id).Some?
    requires |s.answers| >= 2 && s.answers[0] == Ok && s.answers[1] == HttpError(status)
    ensures ListPerms(s, id).1 == []
  {
    var (t, reply) := ListPermissionsPage(s, id, 0, DefaultPageSize);
    assert reply.Done? && reply.value.next == Some(DefaultPageSize);
    assert t.answers[0] == HttpError(status);
    assert PermsOf(t, id) == PermsOf(s, id);
    assert PermPages(t, id, DefaultPageSize).1 == None;
    assert PermPages(s, id, 0).1 == None;
  }

  /** The pages fetched so far in front of what the remaining pages give. */
  function Prefixed(fetched: seq<Permission>, rest: Option<seq<Permission>>): Option<seq<Permission>> {
    if rest.None? then None else Some(fetched + rest.value)
  }

  /** One page request: on failure the listing is None, otherwise its entries come before the following pages. */
  lemma PermPagesStep(s: DriveState, id: string, offset: nat)
    requires offset <= |PermsOf(s, id)|
    ensures var (t, reply) := ListPermissionsPage(s, id, offset, DefaultPageSize);
            PermPages(s, id, offset)
            == if reply.Failed? then (t, None)
               else if reply.value.next.None? then (t, Some(reply.value.entries))
               else (PermPages(t, id, reply.value.next.value).0, Prefixed(reply.value.entries, PermPages(t, id, reply.value.next.value).1))
  {
  }

  /** The loop over the pages, following nextPageToken. */
  method ListPermissionsMethod(svc: DriveService, id: string) returns (perms: seq<Permission>)
    modifies svc
    ensures (svc.state, perms) == ListPerms(old(svc.state), id)
  {
    ghost var target := PermPages(svc.state, id, 0);
    ghost var all := PermsOf(svc.state, id);
    perms := [];
    if target.1.Some? {
      assert perms + target.1.value == target.1.value;
    }
    var offset: nat := 0;
    while true
      invariant offset <= |all| && all == PermsOf(svc.state, id)
      invariant target.0 == PermPages(svc.state, id, offset).0
      invariant target.1 == Prefixed(perms, PermPages(svc.state, id, offset).1)
      decreases |all| - offset
    {
      PermPagesStep(svc.state, id, offset);
      var reply := svc.ListPermsPage(id, offset, DefaultPageSize);
      match reply {
        case Failed(_) =>
          return [];
        case Done(page) =>
          match page.next {
            case None =>
              perms := perms + page.entries;
              return;
            case Some(next) =>
              ghost var more := PermPages(svc.state, id, next).1;
              if more.Some? {
                ConcatAssoc(perms, page.entries, more.value);
              }
              perms := perms + page.entries;
              offset := next;
          }
      }
    }
  }

  // ================================================================ delete_permission

  /**
   * delete_permission from attempt `attempt` on: a delete that succeeds
   * returns True; 403 or 429 tries again while attempts remain; any other
   * error returns False at once.
   */
  function DeleteWithRetry(s: DriveState, id: string, pid: string, attempt: nat): (r: (DriveState, bool))
    requires attempt <= DeleteAttempts
    ensures r.0.items == s.items && r.0.calls <= s.calls + (DeleteAttempts - attempt)
    ensures !r.1 ==> r.0.perms == s.perms
    ensures r.1 ==> HasPermissionId(s, id, pid) && r.0.perms == s.perms[id := WithoutPermission(PermsOf(s, id), pid)]
    decreases DeleteAttempts - attempt
  {
    if attempt == DeleteAttempts then (s, false)
    else
      var (t, o) := DeletePermission(s, id, pid);
      match o
      case Ok => (t, true)
      case HttpError(st) =>
        if st in DeleteRetryStatuses then
          var r := DeleteWithRetry(t, id, pid, attempt + 1);
          assert PermsOf(t, id) == PermsOf(s, id) && HasPermissionId(t, id, pid) == HasPermissionId(s, id, pid);
          r
        else (t, false)
  }

  /** Any error other than 403 or 429 ends the delete with False after one request. */
  lemma DeleteStopsOnOtherErrors(s: DriveState, id: string, pid: string)
    requires s.answers != [] && s.answers[0].HttpError? && s.answers[0].status !in DeleteRetryStatuses
    ensures DeleteWithRetry(s, id, pid, 0) == (DeletePermission(s, id, pid).0, false)
    ensures DeleteWithRetry(s, id, pid, 0).0.calls == s.calls + 1
  {
  }

  /** Five answers of 403 or 429 in a row use up every attempt: False after five requests. */
  lemma DeleteGivesUp(s: DriveState, id: string, pid: string)
    requires |s.answers| >= 5
    requires forall i :: 0 <= i < 5 ==> s.answers[i].HttpError? && s.answers[i].status in DeleteRetryStatuses
    ensures DeleteWithRetry(s, id, pid, 0).1 == false
    ensures DeleteWithRetry(s, id, pid, 0).0.calls == s.calls + 5
  {
    var t := s;
    for a := 0 to 5
      invariant t.answers == s.answers[a..] && t.calls == s.calls + a && t.perms == s.perms && t.items == s.items
      invariant DeleteWithRetry(s, id, pid, 0) == DeleteWithRetry(t, id, pid, a)
    {
      assert t.answers[0] == s.answers[a];
      t := DeletePermission(t, id, pid).0;
    }
  }

  /** The for-attempt loop. */
  method DeletePermissionMethod(svc: DriveService, id: string, pid: string) returns (ok: bool)
    modifies svc
    ensures (svc.state, ok) == DeleteWithRetry(old(svc.state), id, pid, 0)
  {
    for attempt := 0 to DeleteAttempts
      invariant DeleteWithRetry(old(svc.state), id, pid, 0) == DeleteWithRetry(svc.state, id, pid, attempt)
    {
      var o := svc.Delete(id, pid);
      match o {
        case Ok =>
          return true;
        case HttpError(st) =>
          if st !in DeleteRetryStatuses {
            return false;
          }
      }
    }
    return false;
  }

  // ================================================================ traverse_and_strip

  /** The lower-cased target emails. */
  function LowerAll(targets: seq<string>): (r: seq<string>)
    ensures |r| == |targets| && forall i :: 0 <= i < |targets| ==> r[i] == Lower(targets[i])
  {
    seq(|targets|, i requires 0 <= i < |targets| => Lower(targets[i]))
  }

  /** A permission email that is present and equals some target ignoring case. */
  predicate Matches(email: string, targets: seq<string>) {
    email != "" && Lower(email) in LowerAll(targets)
  }

  /** Matching is case-insensitive equality with one of the targets; a permission without an email never matches. */
  lemma MatchesIgnoringCase(email: string, targets: seq<string>)
    ensures Matches(email, targets) <==> email != "" && exists i :: 0 <= i < |targets| && EqualsIgnoreCase(email, targets[i])
  {
    if Matches(email, targets) {
      var i :| 0 <= i < |targets| && LowerAll(targets)[i] == Lower(email);
      assert EqualsIgnoreCase(email, targets[i]);
    }
  }

  /** One removed_log entry. */
  datatype Entry = Entry(itemId: string, itemName: string, itemType: string, permissionId: string, email: string, role: string)

  /** Whose permissions are being stripped: the traversed folder (its name is fetched per entry), or a file child with its listed name. */
  datatype Target = FolderTarget | FileTarget(name: string)

  function TypeOf(t: Target): string {
    if t.FolderTarget? then "folder" else "file"
  }

  /** What every entry the walk logs satisfies: a matching email, and a folder or file type. */
  predicate Logged(log: seq<Entry>, targets: seq<string>) {
    forall e :: e in log ==> Matches(e.email, targets) && (e.itemType == "folder" || e.itemType == "file")
  }

  /** What an entry for permission p of item id says: the item, its kind, and p's id, email and role, with an email that matches. */
  predicate EntryOf(e: Entry, id: string, p: Permission, targets: seq<string>, t: Target) {
    && e.itemId == id && e.itemType == TypeOf(t) && Matches(e.email, targets)
    && e.permissionId == p.id && e.email == p.emailAddress && e.role == p.role
  }

  /**
   * One listed permission: a matching one is deleted and, when that
   * succeeds, appended to removed_log; for a folder the name comes from
   * files.get, which raises when it fails.
   */
  function StripOne(s: DriveState, log: seq<Entry>, id: string, p: Permission, targets: seq<string>, t: Target): (r: (DriveState, Run<seq<Entry>>))
    ensures r.0.items == s.items
    ensures !Matches(p.emailAddress, targets) ==> r == (s, Returned(log))
    ensures r.1.Returned? ==> r.1.value == log || (|r.1.value| == |log| + 1 && r.1.value == log + [r.1.value[|log|]] && EntryOf(r.1.value[|log|], id, p, targets, t))
    ensures r.1.Returned? && |r.1.value| > |log| ==>
              HasPermissionId(s, id, p.id) && r.0.perms == s.perms[id := WithoutPermission(PermsOf(s, id), p.id)]
    ensures r.1.Returned? && |r.1.value| == |log| ==> r.0.perms == s.perms
    ensures Matches(p.emailAddress, targets) && DeleteWithRetry(s, id, p.id, 0).1 ==>
              && r.0.perms == s.perms[id := WithoutPermission(PermsOf(s, id), p.id)]
              && !HasPermissionId(r.0, id, p.id)
              && (t.FileTarget? ==> r.1.Returned?)
              && (r.1.Returned? ==> |r.1.value| == |log| + 1)
  {
    if !Matches(p.emailAddress, targets) then (s, Returned(log))
    else
      var (v, ok) := DeleteWithRetry(s, id, p.id, 0);
      if !ok then (v, Returned(log))
      else
        match t
        case FileTarget(name) => (v, Returned(log + [Entry(id, name, "file", p.id, p.emailAddress, p.role)]))
        case FolderTarget =>
          var (w, got) := GetItem(v, id);
          match got
          case Failed(_) => (w, Raised("HttpError"))
          case Done(it) => (w, Returned(log + [Entry(id, it.name, "folder", p.id, p.emailAddress, p.role)]))
  }

  /** The loop over one item's listed permissions from the i-th on, appending to removed_log. */
  function StripFrom(s: DriveState, id: string, ps: seq<Permission>, i: nat, log: seq<Entry>, targets: seq<string>, t: Target)
    : (r: (DriveState, Run<seq<Entry>>))
    requires i <= |ps|
    ensures r.0.items == s.items
    ensures r.1.Returned? ==> log <= r.1.value && (Logged(log, targets) ==> Logged(r.1.value, targets))
    decreases |ps| - i
  {
    if i == |ps| then (s, Returned(log))
    else
      var (u, step) := StripOne(s, log, id, ps[i], targets, t);
      if step.Raised? then (u, step) else StripFrom(u, id, ps, i + 1, step.value, targets, t)
  }

  /** Every entry the loop appends records one of the listed permissions from the i-th on, with a matching email. */
  lemma {:induction false} StripFromListed(s: DriveState, id: string, ps: seq<Permission>, i: nat, log: seq<Entry>, targets: seq<string>, t: Target)
    requires i <= |ps|
    ensures var r := StripFrom(s, id, ps, i, log, targets, t).1;
            r.Returned? ==> forall k :: |log| <= k < |r.value| ==> exists j :: i <= j < |ps| && EntryOf(r.value[k], id, ps[j], targets, t)
    decreases |ps| - i
  {
    if i < |ps| {
      var step := StripOne(s, log, id, ps[i], targets, t);
      if step.1.Returned? {
        StripFromListed(step.0, id, ps, i + 1, step.1.value, targets, t);
        var r := StripFrom(step.0, id, ps, i + 1, step.1.value, targets, t).1;
        assert StripFrom(s, id, ps, i, log, targets, t).1 == r;
        if r.Returned? {
          forall k | |log| <= k < |r.value|
            ensures exists j :: i <= j < |ps| && EntryOf(r.value[k], id, ps[j], targets, t)
          {
            if k < |step.1.value| {
              assert k == |log| && r.value[k] == step.1.value[k];
              assert EntryOf(r.value[k], id, ps[i], targets, t);
            }
          }
        }
      }
    }
  }

  /**
   * traverse_and_strip(folder): the folder's own permissions first, then
   * every page of its untrashed children, a subfolder by recursion and a
   * file by stripping its own permissions; removed_log only grows.
   */
  function Traverse(s: DriveState, folder: string, targets: seq<string>, log: seq<Entry>, rank: map<string, nat>)
    : (r: (DriveState, Run<seq<Entry>>))
    requires Ranked(s.items, rank)
    ensures r.0.items == s.items
    ensures r.1.Returned? ==> log <= r.1.value && (Logged(log, targets) ==> Logged(r.1.value, targets))
    decreases ItemRank(folder, rank), 3, 0
  {
    var (t, ps) := ListPerms(s, folder);
    var (u, own) := StripFrom(t, folder, ps, 0, log, targets, FolderTarget);
    if own.Raised? then (u, own) else TraversePages(u, folder, 0, targets, own.value, rank)
  }

  /** The children pages from `offset` on; a failed listing ends this folder's walk, keeping what was logged. */
  function TraversePages(s: DriveState, folder: string, offset: nat, targets: seq<string>, log: seq<Entry>, rank: map<string, nat>)
    : (r: (DriveState, Run<seq<Entry>>))
    requires Ranked(s.items, rank)
    ensures r.0.items == s.items
    ensures r.1.Returned? ==> log <= r.1.value && (Logged(log, targets) ==> Logged(r.1.value, targets))
    decreases ItemRank(folder, rank), 2, |ChildrenOf(s.items, folder, true)| - offset
  {
    var (t, reply) := ListChildren(s, folder, true, offset, DefaultPageSize);
    match reply
    case Failed(_) => (t, Returned(log))
    case Done(page) =>
      var (u, r) := EntriesFrom(t, folder, page.entries, 0, targets, log, rank);
      if r.Raised? || page.next.None? then (u, r)
      else TraversePages(u, folder, page.next.value, targets, r.value, rank)
  }

  /** The children of one page from the j-th on. */
  function EntriesFrom(s: DriveState, folder: string, entries: seq<Item>, j: nat, targets: seq<string>, log: seq<Entry>, rank: map<string, nat>)
    : (r: (DriveState, Run<seq<Entry>>))
    requires Ranked(s.items, rank) && j <= |entries|
    requires forall e :: e in entries ==> e in ChildrenOf(s.items, folder, true)
    ensures r.0.items == s.items
    ensures r.1.Returned? ==> log <= r.1.value && (Logged(log, targets) ==> Logged(r.1.value, targets))
    decreases ItemRank(folder, rank), 1, |entries| - j
  {
    if j == |entries| then (s, Returned(log))
    else
      ChildBelow(s.items, rank, folder, true, entries, j);
      var c := TraverseChild(s, folder, entries[j], targets, log, rank);
      if c.1.Raised? then c else EntriesFrom(c.0, folder, entries, j + 1, targets, c.1.value, rank)
  }

  /** One child: a subfolder is walked, a file has its own permissions stripped. */
  function TraverseChild(s: DriveState, folder: string, it: Item, targets: seq<string>, log: seq<Entry>, rank: map<string, nat>)
    : (r: (DriveState, Run<seq<Entry>>))
    requires Ranked(s.items, rank) && it.id in rank && ItemRank(it.id, rank) < ItemRank(folder, rank)
    ensures r.0.items == s.items
    ensures r.1.Returned? ==> log <= r.1.value && (Logged(log, targets) ==> Logged(r.1.value, targets))
    decreases ItemRank(folder, rank), 0, 0
  {
    if IsFolder(it) then Traverse(s, it.id, targets, log, rank)
    else
      var (u, ps) := ListPerms(s, it.id);
      StripFrom(u, it.id, ps, 0, log, targets, FileTarget(it.name))
  }

  /** The loop over one item's listed permissions. */
  method StripPermissions(svc: DriveService, id: string, ps: seq<Permission>, targets: seq<string>, t: Target, removedLog: seq<Entry>)
    returns (r: Run<seq<Entry>>)
    modifies svc
    ensures (svc.state, r) == StripFrom(old(svc.state), id, ps, 0, removedLog, targets, t)
  {
    var log := removedLog;
    for n := 0 to |ps|
      invariant StripFrom(old(svc.state), id, ps, 0, removedLog, targets, t) == StripFrom(svc.state, id, ps, n, log, targets, t)
    {
      var step := StripPermission(svc, log, id, ps[n], targets, t);
      if step.Raised? {
        return step;
      }
      log := step.value;
    }
    return Returned(log);
  }

  /** The body of that loop for one permission. */
  method StripPermission(svc: DriveService, log: seq<Entry>, id: string, p: Permission, targets: seq<string>, t: Target) returns (r: Run<seq<Entry>>)
    modifies svc
    ensures (svc.state, r) == StripOne(old(svc.state), log, id, p, targets, t)
  {
    var email := p.emailAddress;
    if email != "" && Lower(email) in LowerAll(targets) {
      var ok := DeletePermissionMethod(svc, id, p.id);
      if !ok {
        return Returned(log);
      }
      match t {
        case FileTarget(name) =>
          return Returned(log + [Entry(id, name, "file", p.id, email, p.role)]);
        case FolderTarget =>
          var got := svc.Get(id);
          if got.Failed? {
            return Raised("HttpError");
          }
          return Returned(log + [Entry(id, got.value.name, "folder", p.id, email, p.role)]);
      }
    }
    return Returned(log);
  }

  /** traverse_and_strip, recursing into subfolders. */
  method TraverseAndStrip(svc: DriveService, folder: string, targets: seq<string>, removedLog: seq<Entry>, rank: map<string, nat>)
    returns (r: Run<seq<Entry>>)
    requires Ranked(svc.state.items, rank)
    modifies svc
    ensures (svc.state, r) == Traverse(old(svc.state), folder, targets, removedLog, rank)
    decreases ItemRank(folder, rank), 3, 0
  {
    var perms := ListPermissionsMethod(svc, folder);
    var own := StripPermissions(svc, folder, perms, targets, FolderTarget, removedLog);
    if own.Raised? {
      return own;
    }
    r := StripChildren(svc, folder, targets, own.value, rank);
  }

  /** The loop over the pages of a folder's untrashed children. */
  method StripChildren(svc: DriveService, folder: string, targets: seq<string>, removedLog: seq<Entry>, rank: map<string, nat>)
    returns (r: Run<seq<Entry>>)
    requires Ranked(svc.state.items, rank)
    modifies svc
    ensures (svc.state, r) == TraversePages(old(svc.state), folder, 0, targets, removedLog, rank)
    decreases ItemRank(folder, rank), 2, 0
  {
    ghost var items := svc.state.items;
    ghost var target := TraversePages(svc.state, folder, 0, targets, removedLog, rank);
    var log := removedLog;
    var offset: nat := 0;
    while true
      invariant svc.state.items == items
      invariant target == TraversePages(svc.state, folder, offset, targets, log, rank)
      decreases |ChildrenOf(items, folder, true)| - offset
    {
      var reply := svc.List(folder, true, offset, DefaultPageSize);
      match reply {
        case Failed(_) =>
          return Returned(log);
        case Done(page) =>
          var pageLog := StripPage(svc, folder, page.entries, targets, log, rank);
          if pageLog.Raised? || page.next.None? {
            return pageLog;
          }
          log := pageLog.value;
          offset := page.next.value;
      }
    }
  }

  /** The loop over the children on one page. */
  method StripPage(svc: DriveService, folder: string, entries: seq<Item>, targets: seq<string>, removedLog: seq<Entry>, rank: map<string, nat>)
    returns (r: Run<seq<Entry>>)
    requires Ranked(svc.state.items, rank)
    requires forall e :: e in entries ==> e in ChildrenOf(svc.state.items, folder, true)
    modifies svc
    ensures (svc.state, r) == EntriesFrom(old(svc.state), folder, entries, 0, targets, removedLog, rank)
    decreases ItemRank(folder, rank), 1, 0
  {
    ghost var items := svc.state.items;
    ghost var target := EntriesFrom(svc.state, folder, entries, 0, targets, removedLog, rank);
    var log := removedLog;
    for j := 0 to |entries|
      invariant svc.state.items == items
      invariant target == EntriesFrom(svc.state, folder, entries, j, targets, log, rank)
    {
      ChildBelow(items, rank, folder, true, entries, j);
      var sub := StripChild(svc, folder, entries[j], targets, log, rank);
      if sub.Raised? {
        return sub;
      }
      log := sub.value;
    }
    return Returned(log);
  }

  /** The body of that loop for one child. */
  method StripChild(svc: DriveService, folder: string, it: Item, targets: seq<string>, removedLog: seq<Entry>, rank: map<string, nat>)
    returns (r: Run<seq<Entry>>)
    requires Ranked(svc.state.items, rank) && it.id in rank && ItemRank(it.id, rank) < ItemRank(folder, rank)
    modifies svc
    ensures (svc.state, r) == TraverseChild(old(svc.state), folder, it, targets, removedLog, rank)
    decreases ItemRank(folder, rank), 0, 0
  {
    if it.mimeType == FolderMime {
      r := TraverseAndStrip(svc, it.id, targets, removedLog, rank);
    } else {
      var perms := ListPermissionsMethod(svc, it.id);
      r := StripPermissions(svc, it.id, perms, targets, FileTarget(it.name), removedLog);
    }
  }

  // ================================================================ nothing is removed unlogged

  /** Some entry of the log records permission id pid of item x. */
  predicate Recorded(log: seq<Entry>, x: string, pid: string) {
    exists e :: e in log && e.itemId == x && e.permissionId == pid
  }

  /** Every permission present in s1 and gone in s2 is recorded in the log under its item and id. */
  ghost predicate Accounted(s1: DriveState, s2: DriveState, log: seq<Entry>) {
    forall x: string, q: Permission :: q in PermsOf(s1, x) && q !in PermsOf(s2, x) ==> Recorded(log, x, q.id)
  }

  lemma AccountedChain(s1: DriveState, s2: DriveState, s3: DriveState, log1: seq<Entry>, log2: seq<Entry>)
    requires Accounted(s1, s2, log1) && Accounted(s2, s3, log2) && log1 <= log2
    ensures Accounted(s1, s3, log2)
  {
    forall x: string, q: Permission | q in PermsOf(s1, x) && q !in PermsOf(s3, x)
      ensures Recorded(log2, x, q.id)
    {
      if q !in PermsOf(s2, x) {
        assert Recorded(log1, x, q.id);
        var e :| e in log1 && e.itemId == x && e.permissionId == q.id;
        assert e in log2 by {
          var k :| 0 <= k < |log1| && log1[k] == e;
          assert log2[k] == e;
        }
      }
    }
  }

  /** One permission: only a matching one that was deleted disappears, and it is logged, unless files.get raised. */
  lemma StripOneAccounted(s: DriveState, log: seq<Entry>, id: string, p: Permission, targets: seq<string>, t: Target)
    ensures var r := StripOne(s, log, id, p, targets, t);
            r.1.Returned? ==> Accounted(s, r.0, r.1.value)
  {
    var r := StripOne(s, log, id, p, targets, t);
    if Matches(p.emailAddress, targets) && r.1.Returned? {
      var (v, ok) := DeleteWithRetry(s, id, p.id, 0);
      if ok {
        assert r.1.value == log + [r.1.value[|log|]];
        var e := r.1.value[|log|];
        assert e in r.1.value && e.itemId == id && e.permissionId == p.id;
        assert PermsOf(r.0, id) == WithoutPermission(PermsOf(s, id), p.id);
        forall x: string, q: Permission | q in PermsOf(s, x) && q !in PermsOf(r.0, x)
          ensures Recorded(r.1.value, x, q.id)
        {
          assert x == id && q.id == p.id;
        }
      }
    }
  }

  lemma {:induction false} StripFromAccounted(s: DriveState, id: string, ps: seq<Permission>, i: nat, log: seq<Entry>, targets: seq<string>, t: Target)
    requires i <= |ps|
    ensures var r := StripFrom(s, id, ps, i, log, targets, t);
            r.1.Returned? ==> Accounted(s, r.0, r.1.value)
    decreases |ps| - i
  {
    if i < |ps| {
      var step := StripOne(s, log, id, ps[i], targets, t);
      StripOneAccounted(s, log, id, ps[i], targets, t);
      if step.1.Returned? {
        StripFromAccounted(step.0, id, ps, i + 1, step.1.value, targets, t);
        var r := StripFrom(step.0, id, ps, i + 1, step.1.value, targets, t);
        assert StripFrom(s, id, ps, i, log, targets, t) == r;
        if r.1.Returned? {
          AccountedChain(s, step.0, r.0, step.1.value, r.1.value);
        }
      }
    }
  }

  lemma {:induction false} TraverseAccounted(s: DriveState, folder: string, targets: seq<string>, log: seq<Entry>, rank: map<string, nat>)
    requires Ranked(s.items, rank)
    ensures var r := Traverse(s, folder, targets, log, rank);
            r.1.Returned? ==> Accounted(s, r.0, r.1.value)
    decreases ItemRank(folder, rank), 3, 0
  {
    var listed := ListPerms(s, folder);
    var t, ps := listed.0, listed.1;
    var own := StripFrom(t, folder, ps, 0, log, targets, FolderTarget);
    StripFromAccounted(t, folder, ps, 0, log, targets, FolderTarget);
    if own.1.Returned? {
      TraversePagesAccounted(own.0, folder, 0, targets, own.1.value, rank);
      var r := TraversePages(own.0, folder, 0, targets, own.1.value, rank);
      assert Traverse(s, folder, targets, log, rank) == r;
      if r.1.Returned? {
        AccountedChain(t, own.0, r.0, own.1.value, r.1.value);
      }
    }
  }

  lemma {:induction false} TraversePagesAccounted(s: DriveState, folder: string, offset: nat, targets: seq<string>, log: seq<Entry>, rank: map<string, nat>)
    requires Ranked(s.items, rank)
    ensures var r := TraversePages(s, folder, offset, targets, log, rank);
            r.1.Returned? ==> Accounted(s, r.0, r.1.value)
    decreases ItemRank(folder, rank), 2, |ChildrenOf(s.items, folder, true)| - offset
  {
    var listed := ListChildren(s, folder, true, offset, DefaultPageSize);
    var t := listed.0;
    if listed.1.Done? {
      var page := listed.1.value;
      EntriesFromAccounted(t, folder, page.entries, 0, targets, log, rank);
      var r := EntriesFrom(t, folder, page.entries, 0, targets, log, rank);
      if r.1.Returned? && page.next.Some? {
        TraversePagesAccounted(r.0, folder, page.next.value, targets, r.1.value, rank);
        var rest := TraversePages(r.0, folder, page.next.value, targets, r.1.value, rank);
        assert TraversePages(s, folder, offset, targets, log, rank) == rest;
        if rest.1.Returned? {
          AccountedChain(t, r.0, rest.0, r.1.value, rest.1.value);
        }
      }
    }
  }

  lemma {:induction false} EntriesFromAccounted(s: DriveState, folder: string, entries: seq<Item>, j: nat, targets: seq<string>, log: seq<Entry>, rank: map<string, nat>)
    requires Ranked(s.items, rank) && j <= |entries|
    requires forall e :: e in entries ==> e in ChildrenOf(s.items, folder, true)
    ensures var r := EntriesFrom(s, folder, entries, j, targets, log, rank);
            r.1.Returned? ==> Accounted(s, r.0, r.1.value)
    decreases ItemRank(folder, rank), 1, |entries| - j
  {
    if j < |entries| {
      ChildBelow(s.items, rank, folder, true, entries, j);
      TraverseChildAccounted(s, folder, entries[j], targets, log, rank);
      var c := TraverseChild(s, folder, entries[j], targets, log, rank);
      if c.1.Returned? {
        var u := c.0;
        var logged := c.1.value;
        assert u.items == s.items;
        EntriesFromAccounted(u, folder, entries, j + 1, targets, logged, rank);
        var rest := EntriesFrom(u, folder, entries, j + 1, targets, logged, rank);
        assert EntriesFrom(s, folder, entries, j, targets, log, rank) == rest;
        if rest.1.Returned? {
          AccountedChain(s, u, rest.0, logged, rest.1.value);
        }
      } else {
        assert EntriesFrom(s, folder, entries, j, targets, log, rank).1.Raised?;
      }
    } else {
      assert EntriesFrom(s, folder, entries, j, targets, log, rank) == (s, Returned(log));
    }
  }

  lemma {:induction false} TraverseChildAccounted(s: DriveState, folder: string, it: Item, targets: seq<string>, log: seq<Entry>, rank: map<string, nat>)
    requires Ranked(s.items, rank) && it.id in rank && ItemRank(it.id, rank) < ItemRank(folder, rank)
    ensures var r := TraverseChild(s, folder, it, targets, log, rank);
            r.1.Returned? ==> Accounted(s, r.0, r.1.value)
    decreases ItemRank(folder, rank), 0, 0
  {
    if IsFolder(it) {
      TraverseAccounted(s, it.id, targets, log, rank);
    } else {
      var listed := ListPerms(s, it.id);
      StripFromAccounted(listed.0, it.id, listed.1, 0, log, targets, FileTarget(it.name));
    }
  }

  /**
   * The walk's safety: a permission that was present before and is gone
   * after a completed walk is recorded in removed_log under its item and
   * id, by an entry whose email matches one of the targets.
   */
  lemma StripTreeRemovesOnlyLogged(s: DriveState, root: string, targets: seq<string>, rank: map<string, nat>, x: string, q: Permission)
    requires Ranked(s.items, rank)
    requires var r := StripTree(s, root, targets, rank);
             r.1.Returned? && q in PermsOf(s, x) && q !in PermsOf(r.0, x)
    ensures exists e :: e in StripTree(s, root, targets, rank).1.value && e.itemId == x && e.permissionId == q.id && Matches(e.email, targets)
  {
    TraverseAccounted(s, root, targets, [], rank);
  }

  // ================================================================ nothing is logged unremoved

  /** Between s1 and s2 permissions only disappear. */
  ghost predicate Shrinks(s1: DriveState, s2: DriveState) {
    forall x: string, q: Permission :: q in PermsOf(s2, x) ==> q in PermsOf(s1, x)
  }

  /**
   * Between s1 and s2 permissions only disappear, and every log entry from
   * the k-th on names a permission id its item had in s1 and has no more in s2.
   */
  ghost predicate RemovedFrom(s1: DriveState, s2: DriveState, log: seq<Entry>, k: nat) {
    && k <= |log| && Shrinks(s1, s2)
    && forall i :: k <= i < |log| ==>
         HasPermissionId(s1, log[i].itemId, log[i].permissionId) && !HasPermissionId(s2, log[i].itemId, log[i].permissionId)
  }

  lemma HasShrinks(s1: DriveState, s2: DriveState, x: string, pid: string)
    requires Shrinks(s1, s2) && HasPermissionId(s2, x, pid)
    ensures HasPermissionId(s1, x, pid)
  {
    var q :| q in PermsOf(s2, x) && q.id == pid;
    assert q in PermsOf(s1, x);
  }

  lemma RemovedChain(s1: DriveState, s2: DriveState, s3: DriveState, log1: seq<Entry>, log2: seq<Entry>, k: nat)
    requires RemovedFrom(s1, s2, log1, k) && RemovedFrom(s2, s3, log2, |log1|) && log1 <= log2
    ensures RemovedFrom(s1, s3, log2, k)
  {
    forall i | k <= i < |log2|
      ensures HasPermissionId(s1, log2[i].itemId, log2[i].permissionId) && !HasPermissionId(s3, log2[i].itemId, log2[i].permissionId)
    {
      if i < |log1| {
        assert log2[i] == log1[i];
        if HasPermissionId(s3, log2[i].itemId, log2[i].permissionId) {
          HasShrinks(s2, s3, log2[i].itemId, log2[i].permissionId);
        }
      } else {
        HasShrinks(s1, s2, log2[i].itemId, log2[i].permissionId);
      }
    }
  }

  /** One permission: an entry is appended only for a permission the delete removed. */
  lemma StripOneRemoves(s: DriveState, log: seq<Entry>, id: string, p: Permission, targets: seq<string>, t: Target)
    ensures var r := StripOne(s, log, id, p, targets, t);
            r.1.Returned? ==> RemovedFrom(s, r.0, r.1.value, |log|)
  {
    var r := StripOne(s, log, id, p, targets, t);
    if r.1.Returned? && |r.1.value| > |log| {
      var e := r.1.value[|log|];
      assert e.itemId == id && e.permissionId == p.id;
      assert PermsOf(r.0, id) == WithoutPermission(PermsOf(s, id), p.id);
    }
  }

  lemma {:induction false} StripFromRemoves(s: DriveState, id: string, ps: seq<Permission>, i: nat, log: seq<Entry>, targets: seq<string>, t: Target)
    requires i <= |ps|
    ensures var r := StripFrom(s, id, ps, i, log, targets, t);
            r.1.Returned? ==> RemovedFrom(s, r.0, r.1.value, |log|)
    decreases |ps| - i
  {
    if i < |ps| {
      var step := StripOne(s, log, id, ps[i], targets, t);
      StripOneRemoves(s, log, id, ps[i], targets, t);
      if step.1.Returned? {
        StripFromRemoves(step.0, id, ps, i + 1, step.1.value, targets, t);
        var r := StripFrom(step.0, id, ps, i + 1, step.1.value, targets, t);
        assert StripFrom(s, id, ps, i, log, targets, t) == r;
        if r.1.Returned? {
          RemovedChain(s, step.0, r.0, step.1.value, r.1.value, |log|);
        }
      }
    }
  }

  lemma {:induction false} TraverseRemoves(s: DriveState, folder: string, targets: seq<string>, log: seq<Entry>, rank: map<string, nat>)
    requires Ranked(s.items, rank)
    ensures var r := Traverse(s, folder, targets, log, rank);
            r.1.Returned? ==> RemovedFrom(s, r.0, r.1.value, |log|)
    decreases ItemRank(folder, rank), 3, 0
  {
    var listed := ListPerms(s, folder);
    var t, ps := listed.0, listed.1;
    var own := StripFrom(t, folder, ps, 0, log, targets, FolderTarget);
    StripFromRemoves(t, folder, ps, 0, log, targets, FolderTarget);
    if own.1.Returned? {
      TraversePagesRemoves(own.0, folder, 0, targets, own.1.value, rank);
      var r := TraversePages(own.0, folder, 0, targets, own.1.value, rank);
      assert Traverse(s, folder, targets, log, rank) == r;
      if r.1.Returned? {
        RemovedChain(t, own.0, r.0, own.1.value, r.1.value, |log|);
      }
    }
  }

  lemma {:induction false} TraversePagesRemoves(s: DriveState, folder: string, offset: nat, targets: seq<string>, log: seq<Entry>, rank: map<string, nat>)
    requires Ranked(s.items, rank)
    ensures var r := TraversePages(s, folder, offset, targets, log, rank);
            r.1.Returned? ==> RemovedFrom(s, r.0, r.1.value, |log|)
    decreases ItemRank(folder, rank), 2, |ChildrenOf(s.items, folder, true)| - offset
  {
    var listed := ListChildren(s, folder, true, offset, DefaultPageSize);
    var t := listed.0;
    if listed.1.Done? {
      var page := listed.1.value;
      EntriesFromRemoves(t, folder, page.entries, 0, targets, log, rank);
      var r := EntriesFrom(t, folder, page.entries, 0, targets, log, rank);
      if r.1.Returned? && page.next.Some? {
        TraversePagesRemoves(r.0, folder, page.next.value, targets, r.1.value, rank);
        var rest := TraversePages(r.0, folder, page.next.value, targets, r.1.value, rank);
        assert TraversePages(s, folder, offset, targets, log, rank) == rest;
        if rest.1.Returned? {
          RemovedChain(t, r.0, rest.0, r.1.value, rest.1.value, |log|);
        }
      }
    }
  }

  lemma {:induction false} EntriesFromRemoves(s: DriveState, folder: string, entries: seq<Item>, j: nat, targets: seq<string>, log: seq<Entry>, rank: map<string, nat>)
    requires Ranked(s.items, rank) && j <= |entries|
    requires forall e :: e in entries ==> e in ChildrenOf(s.items, folder, true)
    ensures var r := EntriesFrom(s, folder, entries, j, targets, log, rank);
            r.1.Returned? ==> RemovedFrom(s, r.0, r.1.value, |log|)
    decreases ItemRank(folder, rank), 1, |entries| - j
  {
    if j < |entries| {
      ChildBelow(s.items, rank, folder, true, entries, j);
      TraverseChildRemoves(s, folder, entries[j], targets, log, rank);
      var r := TraverseChild(s, folder, entries[j], targets, log, rank);
      if r.1.Returned? {
        EntriesFromRemoves(r.0, folder, entries, j + 1, targets, r.1.value, rank);
        var rest := EntriesFrom(r.0, folder, entries, j + 1, targets, r.1.value, rank);
        assert EntriesFrom(s, folder, entries, j, targets, log, rank) == rest;
        if rest.1.Returned? {
          RemovedChain(s, r.0, rest.0, r.1.value, rest.1.value, |log|);
        }
      }
    }
  }

  lemma {:induction false} TraverseChildRemoves(s: DriveState, folder: string, it: Item, targets: seq<string>, log: seq<Entry>, rank: map<string, nat>)
    requires Ranked(s.items, rank) && it.id in rank && ItemRank(it.id, rank) < ItemRank(folder, rank)
    ensures var r := TraverseChild(s, folder, it, targets, log, rank);
            r.1.Returned? ==> RemovedFrom(s, r.0, r.1.value, |log|)
    decreases ItemRank(folder, rank), 0, 0
  {
    if IsFolder(it) {
      TraverseRemoves(s, it.id, targets, log, rank);
    } else {
      var listed := ListPerms(s, it.id);
      StripFromRemoves(listed.0, it.id, listed.1, 0, log, targets, FileTarget(it.name));
    }
  }

  /**
   * The other half of the walk's safety: a completed walk never adds a
   * permission, and every removed_log entry names a permission id its item
   * had before the walk and no longer has after it.
   */
  lemma StripTreeLoggedWereRemoved(s: DriveState, root: string, targets: seq<string>, rank: map<string, nat>)
    requires Ranked(s.items, rank) && StripTree(s, root, targets, rank).1.Returned?
    ensures var r := StripTree(s, root, targets, rank);
            && (forall x: string, q: Permission :: q in PermsOf(r.0, x) ==> q in PermsOf(s, x))
            && forall e :: e in r.1.value ==> HasPermissionId(s, e.itemId, e.permissionId) && !HasPermissionId(r.0, e.itemId, e.permissionId)
  {
    TraverseRemoves(s, root, targets, [], rank);
    var r := StripTree(s, root, targets, rank);
    forall e | e in r.1.value
      ensures HasPermissionId(s, e.itemId, e.permissionId) && !HasPermissionId(r.0, e.itemId, e.permissionId)
    {
      var i :| 0 <= i < |r.1.value| && r.1.value[i] == e;
    }
  }

  // ================================================================ nothing matching is left

  /** No permission of item x has an email that matches a target. */
  predicate Clean(s: DriveState, x: string, targets: seq<string>) {
    forall p :: p in PermsOf(s, x) ==> !Matches(p.emailAddress, targets)
  }

  lemma CleanShrinks(s1: DriveState, s2: DriveState, x: string, targets: seq<string>)
    requires Shrinks(s1, s2) && Clean(s1, x, targets)
    ensures Clean(s2, x, targets)
  {
  }

  lemma ShrinksChain(s1: DriveState, s2: DriveState, s3: DriveState)
    requires Shrinks(s1, s2) && Shrinks(s2, s3)
    ensures Shrinks(s1, s3)
  {
  }

  /** Against a Drive that answers every request, list_permissions returns the item's permissions, or [] for an item that does not exist. */
  lemma {:induction false} PermPagesComplete(s: DriveState, id: string, offset: nat)
    requires offset <= |PermsOf(s, id)| && s.answers == []
    ensures PermPages(s, id, offset).0.answers == []
    ensures PermPages(s, id, offset).1 == if FindItem(s.items, id).Some? then Some(PermsOf(s, id)[offset..]) else None
    decreases |PermsOf(s, id)| - offset
  {
    var listed := ListPermissionsPage(s, id, offset, DefaultPageSize);
    assert listed.0.answers == [];
    if listed.1.Done? && listed.1.value.next.Some? {
      PermPagesComplete(listed.0, id, listed.1.value.next.value);
    }
  }

  lemma ListPermsComplete(s: DriveState, id: string)
    requires s.answers == []
    ensures ListPerms(s, id).0.answers == []
    ensures ListPerms(s, id).1 == if FindItem(s.items, id).Some? then PermsOf(s, id) else []
  {
    PermPagesComplete(s, id, 0);
  }

  /**
   * Against a Drive that answers every request, one listed permission never
   * raises, and a matching one is gone afterwards; when the item had it,
   * it is logged.
   */
  lemma StripOneComplete(s: DriveState, log: seq<Entry>, id: string, p: Permission, targets: seq<string>, t: Target)
    requires s.answers == []
    requires t.FolderTarget? ==> FindItem(s.items, id).Some?
    ensures var r := StripOne(s, log, id, p, targets, t);
            && r.1.Returned? && r.0.answers == [] && Shrinks(s, r.0)
            && (Matches(p.emailAddress, targets) ==> !HasPermissionId(r.0, id, p.id))
            && (Matches(p.emailAddress, targets) && HasPermissionId(s, id, p.id) ==> |r.1.value| == |log| + 1)
  {
    if Matches(p.emailAddress, targets) {
      var d := DeletePermission(s, id, p.id);
      assert DeleteWithRetry(s, id, p.id, 0) == (d.0, HasPermissionId(s, id, p.id));
      assert d.0.answers == [];
    }
  }

  /**
   * Against a Drive that answers every request, the loop over listed
   * permissions never raises and leaves none of the matching ones.
   */
  lemma {:induction false} StripFromComplete(s: DriveState, id: string, ps: seq<Permission>, i: nat, log: seq<Entry>, targets: seq<string>, t: Target)
    requires i <= |ps| && s.answers == []
    requires t.FolderTarget? ==> FindItem(s.items, id).Some?
    ensures var r := StripFrom(s, id, ps, i, log, targets, t);
            && r.1.Returned? && r.0.answers == [] && Shrinks(s, r.0)
            && forall j :: i <= j < |ps| && Matches(ps[j].emailAddress, targets) ==> !HasPermissionId(r.0, id, ps[j].id)
    decreases |ps| - i
  {
    if i < |ps| {
      var step := StripOne(s, log, id, ps[i], targets, t);
      StripOneComplete(s, log, id, ps[i], targets, t);
      StripFromComplete(step.0, id, ps, i + 1, step.1.value, targets, t);
      var r := StripFrom(step.0, id, ps, i + 1, step.1.value, targets, t);
      assert StripFrom(s, id, ps, i, log, targets, t) == r;
      ShrinksChain(s, step.0, r.0);
      if Matches(ps[i].emailAddress, targets) && HasPermissionId(r.0, id, ps[i].id) {
        HasShrinks(step.0, r.0, id, ps[i].id);
      }
    }
  }

  /**
   * Against a Drive that answers every request, listing an existing item's
   * permissions and stripping them leaves it no matching permission.
   */
  lemma StripItemComplete(s: DriveState, id: string, log: seq<Entry>, targets: seq<string>, t: Target)
    requires s.answers == [] && FindItem(s.items, id).Some?
    ensures var listed := ListPerms(s, id);
            var r := StripFrom(listed.0, id, listed.1, 0, log, targets, t);
            r.1.Returned? && r.0.answers == [] && Shrinks(s, r.0) && Clean(r.0, id, targets)
  {
    ListPermsComplete(s, id);
    var listed := ListPerms(s, id);
    var ps := listed.1;
    StripFromComplete(listed.0, id, ps, 0, log, targets, t);
    var r := StripFrom(listed.0, id, ps, 0, log, targets, t);
    forall q | q in PermsOf(r.0, id)
      ensures !Matches(q.emailAddress, targets)
    {
      assert q in ps;
      var j :| 0 <= j < |ps| && ps[j] == q;
      if Matches(q.emailAddress, targets) {
        assert HasPermissionId(r.0, id, ps[j].id);
      }
    }
  }

  /**
   * `it` sits below `folder` through untrashed items: it is an untrashed
   * child of the folder, or sits below an untrashed child folder.
   */
  ghost predicate Reaches(items: seq<Item>, rank: map<string, nat>, folder: string, it: Item)
    requires Ranked(items, rank)
    decreases ItemRank(folder, rank)
  {
    || it in ChildrenOf(items, folder, true)
    || exists c :: c in ChildrenOf(items, folder, true) && IsFolder(c) && Reaches(items, rank, c.id, it)
  }

  /** Nothing below the folder through untrashed items keeps a matching permission. */
  ghost predicate CleanBelow(s: DriveState, items: seq<Item>, rank: map<string, nat>, folder: string, targets: seq<string>)
    requires Ranked(items, rank)
  {
    forall it :: Reaches(items, rank, folder, it) ==> Clean(s, it.id, targets)
  }

  /** A child the walk is done with: it keeps no matching permission, nor does anything below it when it is a folder. */
  ghost predicate Finished(s: DriveState, items: seq<Item>, rank: map<string, nat>, c: Item, targets: seq<string>)
    requires Ranked(items, rank)
  {
    Clean(s, c.id, targets) && (IsFolder(c) ==> CleanBelow(s, items, rank, c.id, targets))
  }

  lemma FinishedShrinks(s1: DriveState, s2: DriveState, items: seq<Item>, rank: map<string, nat>, c: Item, targets: seq<string>)
    requires Ranked(items, rank) && Shrinks(s1, s2) && Finished(s1, items, rank, c, targets)
    ensures Finished(s2, items, rank, c, targets)
  {
    CleanShrinks(s1, s2, c.id, targets);
    if IsFolder(c) {
      forall it | Reaches(items, rank, c.id, it)
        ensures Clean(s2, it.id, targets)
      {
        CleanShrinks(s1, s2, it.id, targets);
      }
    }
  }

  /**
   * Against a Drive that answers every request, traverse_and_strip never
   * raises, the folder (when it exists) keeps no matching permission, and
   * neither does anything below it through untrashed items.
   */
  lemma {:induction false} TraverseComplete(s: DriveState, folder: string, targets: seq<string>, log: seq<Entry>, rank: map<string, nat>)
    requires Ranked(s.items, rank) && s.answers == []
    ensures var r := Traverse(s, folder, targets, log, rank);
            && r.1.Returned? && r.0.answers == [] && Shrinks(s, r.0)
            && (FindItem(s.items, folder).Some? ==> Clean(r.0, folder, targets))
            && CleanBelow(r.0, s.items, rank, folder, targets)
    decreases ItemRank(folder, rank), 3, 0
  {
    ListPermsComplete(s, folder);
    var listed := ListPerms(s, folder);
    var own := StripFrom(listed.0, folder, listed.1, 0, log, targets, FolderTarget);
    if FindItem(s.items, folder).Some? {
      StripItemComplete(s, folder, log, targets, FolderTarget);
    } else {
      assert own == (listed.0, Returned(log));
    }
    TraversePagesComplete(own.0, folder, 0, targets, own.1.value, rank);
    var r := TraversePages(own.0, folder, 0, targets, own.1.value, rank);
    assert Traverse(s, folder, targets, log, rank) == r;
    ShrinksChain(s, own.0, r.0);
    if FindItem(s.items, folder).Some? {
      CleanShrinks(own.0, r.0, folder, targets);
    }
    var cs := ChildrenOf(s.items, folder, true);
    forall c | c in cs
      ensures Finished(r.0, s.items, rank, c, targets)
    {
      var k :| 0 <= k < |cs| && cs[k] == c;
      assert own.0.items == s.items;
      assert Finished(r.0, own.0.items, rank, ChildrenOf(own.0.items, folder, true)[k], targets);
    }
    ChildrenFinished(r.0, s.items, rank, folder, targets);
  }

  /** Once every untrashed child of a folder is finished, nothing below the folder keeps a matching permission. */
  lemma ChildrenFinished(s: DriveState, items: seq<Item>, rank: map<string, nat>, folder: string, targets: seq<string>)
    requires Ranked(items, rank)
    requires forall c :: c in ChildrenOf(items, folder, true) ==> Finished(s, items, rank, c, targets)
    ensures CleanBelow(s, items, rank, folder, targets)
  {
    forall it | Reaches(items, rank, folder, it)
      ensures Clean(s, it.id, targets)
    {
      if it !in ChildrenOf(items, folder, true) {
        var c :| c in ChildrenOf(items, folder, true) && IsFolder(c) && Reaches(items, rank, c.id, it);
        assert CleanBelow(s, items, rank, c.id, targets);
      }
    }
  }

  lemma {:induction false} TraversePagesComplete(s: DriveState, folder: string, offset: nat, targets: seq<string>, log: seq<Entry>, rank: map<string, nat>)
    requires Ranked(s.items, rank) && s.answers == []
    ensures var r := TraversePages(s, folder, offset, targets, log, rank);
            var cs := ChildrenOf(s.items, folder, true);
            && r.1.Returned? && r.0.answers == [] && Shrinks(s, r.0)
            && forall k :: offset <= k < |cs| ==> Finished(r.0, s.items, rank, cs[k], targets)
    decreases ItemRank(folder, rank), 2, |ChildrenOf(s.items, folder, true)| - offset
  {
    var cs := ChildrenOf(s.items, folder, true);
    var listed := ListChildren(s, folder, true, offset, DefaultPageSize);
    var t := listed.0;
    assert listed.1.Done? && t.answers == [];
    var page := listed.1.value;
    assert page == PageOf(cs, offset, DefaultPageSize);
    EntriesFromComplete(t, folder, page.entries, 0, targets, log, rank);
    var r := EntriesFrom(t, folder, page.entries, 0, targets, log, rank);
    if page.next.None? {
      assert TraversePages(s, folder, offset, targets, log, rank) == r;
      forall k | offset <= k < |cs|
        ensures Finished(r.0, s.items, rank, cs[k], targets)
      {
        assert cs[k] == page.entries[k - offset];
      }
    } else {
      var next := page.next.value;
      TraversePagesComplete(r.0, folder, next, targets, r.1.value, rank);
      var rest := TraversePages(r.0, folder, next, targets, r.1.value, rank);
      assert TraversePages(s, folder, offset, targets, log, rank) == rest;
      ShrinksChain(s, r.0, rest.0);
      forall k | offset <= k < |cs|
        ensures Finished(rest.0, s.items, rank, cs[k], targets)
      {
        if k < next {
          assert cs[k] == page.entries[k - offset];
          FinishedShrinks(r.0, rest.0, s.items, rank, cs[k], targets);
        }
      }
    }
  }

  lemma {:induction false} EntriesFromComplete(s: DriveState, folder: string, entries: seq<Item>, j: nat, targets: seq<string>, log: seq<Entry>, rank: map<string, nat>)
    requires Ranked(s.items, rank) && j <= |entries| && s.answers == []
    requires forall e :: e in entries ==> e in ChildrenOf(s.items, folder, true)
    ensures var r := EntriesFrom(s, folder, entries, j, targets, log, rank);
            && r.1.Returned? && r.0.answers == [] && Shrinks(s, r.0)
            && forall k :: j <= k < |entries| ==> Finished(r.0, s.items, rank, entries[k], targets)
    decreases ItemRank(folder, rank), 1, |entries| - j
  {
    if j < |entries| {
      ChildBelow(s.items, rank, folder, true, entries, j);
      TraverseChildComplete(s, folder, entries[j], targets, log, rank);
      var c := TraverseChild(s, folder, entries[j], targets, log, rank);
      EntriesFromComplete(c.0, folder, entries, j + 1, targets, c.1.value, rank);
      var rest := EntriesFrom(c.0, folder, entries, j + 1, targets, c.1.value, rank);
      assert EntriesFrom(s, folder, entries, j, targets, log, rank) == rest;
      ShrinksChain(s, c.0, rest.0);
      FinishedShrinks(c.0, rest.0, s.items, rank, entries[j], targets);
      forall k | j < k < |entries|
        ensures Finished(rest.0, s.items, rank, entries[k], targets)
      {
        assert Finished(rest.0, c.0.items, rank, entries[k], targets);
      }
    }
  }

  lemma {:induction false} TraverseChildComplete(s: DriveState, folder: string, it: Item, targets: seq<string>, log: seq<Entry>, rank: map<string, nat>)
    requires Ranked(s.items, rank) && it.id in rank && ItemRank(it.id, rank) < ItemRank(folder, rank)
    requires s.answers == [] && it in s.items
    ensures var r := TraverseChild(s, folder, it, targets, log, rank);
            r.1.Returned? && r.0.answers == [] && Shrinks(s, r.0) && Finished(r.0, s.items, rank, it, targets)
    decreases ItemRank(folder, rank), 0, 0
  {
    assert FindItem(s.items, it.id).Some?;
    if IsFolder(it) {
      TraverseComplete(s, it.id, targets, log, rank);
    } else {
      StripItemComplete(s, it.id, log, targets, FileTarget(it.name));
    }
  }

  // ================================================================ main: the summary

  function Folders(log: seq<Entry>): (r: seq<Entry>)
    ensures forall e :: e in r <==> e in log && e.itemType == "folder"
  {
    if log == [] then []
    else
      var rest := Folders(log[1..]);
      assert forall e :: e in log <==> e == log[0] || e in log[1..];
      if log[0].itemType == "folder" then [log[0]] + rest else rest
  }

  function Files(log: seq<Entry>): (r: seq<Entry>)
    ensures forall e :: e in r <==> e in log && e.itemType == "file"
  {
    if log == [] then []
    else
      var rest := Files(log[1..]);
      assert forall e :: e in log <==> e == log[0] || e in log[1..];
      if log[0].itemType == "file" then [log[0]] + rest else rest
  }

  /** When every entry is a folder or a file entry, the two summary lists split the log: their lengths add up to its length. */
  lemma {:induction false} SummaryPartition(log: seq<Entry>)
    requires forall e :: e in log ==> e.itemType == "folder" || e.itemType == "file"
    ensures |Folders(log)| + |Files(log)| == |log|
  {
    if log != [] {
      assert forall e :: e in log[1..] ==> e in log;
      SummaryPartition(log[1..]);
    }
  }

  /** main: the walk from the root folder, starting from an empty removed_log. */
  function StripTree(s: DriveState, root: string, targets: seq<string>, rank: map<string, nat>): (r: (DriveState, Run<seq<Entry>>))
    requires Ranked(s.items, rank)
    ensures r.1.Returned? ==> Logged(r.1.value, targets)
    ensures s.answers == [] ==> r.1.Returned? && (FindItem(s.items, root).Some? ==> Clean(r.0, root, targets))
    ensures s.answers == [] ==> CleanBelow(r.0, s.items, rank, root, targets)
  {
    if s.answers == [] then
      TraverseComplete(s, root, targets, [], rank);
      Traverse(s, root, targets, [], rank)
    else Traverse(s, root, targets, [], rank)
  }

  /** The log a completed walk produces splits into the summary's folder and file lists. */
  lemma WalkSummary(s: DriveState, root: string, targets: seq<string>, rank: map<string, nat>)
    requires Ranked(s.items, rank) && StripTree(s, root, targets, rank).1.Returned?
    ensures var log := StripTree(s, root, targets, rank).1.value;
            |Folders(log)| + |Files(log)| == |log|
  {
    SummaryPartition(StripTree(s, root, targets, rank).1.value);
  }
}
