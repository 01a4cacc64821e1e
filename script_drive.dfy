/**
 * The Drive helpers the two stand-alone report scripts share, identical in
 * both: the recursive listing of everything under a folder, the permission
 * fetch, both retrying only on 429 and 5xx while fewer than max_retries
 * retries were made, and the general-access test.
 */
module ScriptDrive {
  import opened Wrappers
  import opened Text
  import opened Drive

  const ScriptRetryStatuses: set<int> := {429, 500, 502, 503, 504}

  /** The default `max_retries`, the value every caller in the scripts uses. */
  const ScriptMaxRetries: nat := 5

  const ListPageSize: nat := 1000

  // ---------------------------------------------------------------- fetch_permissions

  /**
   * fetch_permissions, with `retries` retries made: the item's permissions,
   * or [] after an error that is not retried.
   */
  function FetchPerms(s: DriveState, id: string, maxRetries: nat, retries: nat): (r: (DriveState, seq<Permission>))
    ensures SameContents(r.0, s)
    ensures r.0.calls <= s.calls + 1 + (if retries < maxRetries then maxRetries - retries else 0)
    ensures r.1 == [] || r.1 == PermsOf(s, id)
    decreases maxRetries - retries
  {
    var (t, reply) := ListPermissions(s, id);
    match reply
    case Done(ps) => (t, ps)
    case Failed(st) =>
      if st in ScriptRetryStatuses && retries < maxRetries then FetchPerms(t, id, maxRetries, retries + 1) else (t, [])
  }

  /** An error outside 429 and 5xx ends the fetch after one request, with []. */
  lemma FetchPermsStopsOnOtherErrors(s: DriveState, id: string, maxRetries: nat)
    requires s.answers != [] && s.answers[0].HttpError? && s.answers[0].status !in ScriptRetryStatuses
    ensures FetchPerms(s, id, maxRetries, 0) == (ListPermissions(s, id).0, [])
    ensures FetchPerms(s, id, maxRetries, 0).0.calls == s.calls + 1
  {
  }

  /** Once max_retries retries were made, a retryable error ends the fetch too. */
  lemma FetchPermsGivesUp(s: DriveState, id: string, maxRetries: nat)
    requires s.answers != [] && s.answers[0].HttpError?
    ensures FetchPerms(s, id, maxRetries, maxRetries) == (ListPermissions(s, id).0, [])
  {
  }

  method FetchPermissions(svc: DriveService, id: string, maxRetries: nat) returns (ps: seq<Permission>)
    modifies svc
    ensures (svc.state, ps) == FetchPerms(old(svc.state), id, maxRetries, 0)
  {
    var retries := 0;
    while true
      invariant retries <= maxRetries
      invariant FetchPerms(old(svc.state), id, maxRetries, 0) == FetchPerms(svc.state, id, maxRetries, retries)
      decreases maxRetries - retries
    {
      var reply := svc.ListPerms(id);
      match reply
      case Done(v) =>
        return v;
      case Failed(st) =>
        if st in ScriptRetryStatuses && retries < maxRetries {
          retries := retries + 1;
        } else {
          return [];
        }
    }
  }

  /** The permission lists fetched for the first n ids in turn, each by the retrying fetch with five retries. */
  function FetchedFor(s: DriveState, ids: seq<string>, n: nat): (r: (DriveState, seq<seq<Permission>>))
    requires n <= |ids|
    ensures SameContents(r.0, s) && |r.1| == n
    ensures forall k :: 0 <= k < n ==> r.1[k] == [] || r.1[k] == PermsOf(s, ids[k])
  {
    if n == 0 then (s, [])
    else
      var prev := FetchedFor(s, ids, n - 1);
      var next := FetchPerms(prev.0, ids[n - 1], ScriptMaxRetries, 0);
      (next.0, prev.1 + [next.1])
  }

  // ---------------------------------------------------------------- has_general_access

  /** The type test of has_general_access: access beyond single users. */
  function IsGeneral(p: Permission): (r: bool)
    ensures r ==> p.kind != "user"
    ensures p.kind == "group" || p.kind == "domain" || p.kind == "anyone" ==> r
  {
    p.kind in ["anyone", "anyoneWithLink", "domain", "group"]
  }

  /** has_general_access(perms): 'Yes' when some permission reaches beyond single users, else 'No'. */
  function HasGeneralAccess(ps: seq<Permission>): (r: string)
    ensures r == "Yes" || r == "No"
    ensures r == "Yes" <==> exists p :: p in ps && IsGeneral(p)
  {
    if ps == [] then "No"
    else if IsGeneral(ps[0]) then "Yes"
    else
      assert forall p :: p in ps <==> p == ps[0] || p in ps[1..];
      HasGeneralAccess(ps[1..])
  }

  // ---------------------------------------------------------------- list_all_items / list_all_folders_and_files

  /**
   * The recursive listing of `parent`: every child, in listing order, each
   * folder followed by its own listing. Every listed item is an item of the
   * Drive.
   */
  function ListAll(s: DriveState, parent: string, rank: map<string, nat>): (r: (DriveState, seq<Item>))
    requires Ranked(s.items, rank)
    ensures r.0.items == s.items
    ensures forall it :: it in r.1 ==> it in s.items
    decreases ItemRank(parent, rank), 2, 0, 0
  {
    ListAllPages(s, parent, 0, 0, rank)
  }

  /**
   * The page loop from the page at `offset`, with `retries` retries made so
   * far: the counter is never reset, and the listing ends, keeping what it
   * has, at an error that is not retried.
   */
  function ListAllPages(s: DriveState, parent: string, offset: nat, retries: nat, rank: map<string, nat>): (r: (DriveState, seq<Item>))
    requires Ranked(s.items, rank) && retries <= ScriptMaxRetries
    ensures r.0.items == s.items
    ensures forall it :: it in r.1 ==> it in s.items
    decreases ItemRank(parent, rank), 1, |ChildrenOf(s.items, parent, false)| - offset, ScriptMaxRetries - retries
  {
    var lc := ListChildren(s, parent, false, offset, ListPageSize);
    var t := lc.0;
    match lc.1
    case Failed(st) =>
      if st in ScriptRetryStatuses && retries < ScriptMaxRetries then ListAllPages(t, parent, offset, retries + 1, rank)
      else (t, [])
    case Done(page) =>
      var here := ListAllEntries(t, parent, page.entries, |page.entries|, rank);
      match page.next
      case None => here
      case Some(next) =>
        var rest := ListAllPages(here.0, parent, next, retries, rank);
        (rest.0, here.1 + rest.1)
  }

  /** The first n entries of one page, each folder followed by its own listing. */
  function ListAllEntries(s: DriveState, parent: string, entries: seq<Item>, n: nat, rank: map<string, nat>): (r: (DriveState, seq<Item>))
    requires Ranked(s.items, rank) && n <= |entries|
    requires forall e :: e in entries ==> e in ChildrenOf(s.items, parent, false)
    ensures r.0.items == s.items
    ensures forall it :: it in r.1 ==> it in s.items
    decreases ItemRank(parent, rank), 0, n
  {
    if n == 0 then (s, [])
    else
      var before := ListAllEntries(s, parent, entries, n - 1, rank);
      var it := entries[n - 1];
      ChildBelow(s.items, rank, parent, false, entries, n - 1);
      var sub := if IsFolder(it) then ListAll(before.0, it.id, rank) else (before.0, []);
      (sub.0, before.1 + [it] + sub.1)
  }

  /** An error outside 429 and 5xx on the first page lists nothing, after one request. */
  lemma ListAllStopsOnOtherErrors(s: DriveState, parent: string, rank: map<string, nat>)
    requires Ranked(s.items, rank)
    requires s.answers != [] && s.answers[0].HttpError? && s.answers[0].status !in ScriptRetryStatuses
    ensures ListAll(s, parent, rank) == (ListChildren(s, parent, false, 0, ListPageSize).0, [])
  {
  }

  /** A retryable error on a page asks for the same page again, one retry further on. */
  lemma ListAllRetries(s: DriveState, parent: string, offset: nat, retries: nat, rank: map<string, nat>)
    requires Ranked(s.items, rank) && retries < ScriptMaxRetries
    requires s.answers != [] && s.answers[0].HttpError? && s.answers[0].status in ScriptRetryStatuses
    ensures ListAllPages(s, parent, offset, retries, rank)
            == ListAllPages(ListChildren(s, parent, false, offset, ListPageSize).0, parent, offset, retries + 1, rank)
  {
  }

  /** A page request that failed: retried, or the end of the listing. */
  lemma ListAllPagesFailed(s: DriveState, parent: string, offset: nat, retries: nat, rank: map<string, nat>)
    requires Ranked(s.items, rank) && retries <= ScriptMaxRetries
    requires ListChildren(s, parent, false, offset, ListPageSize).1.Failed?
    ensures var t := ListChildren(s, parent, false, offset, ListPageSize).0;
            ListAllPages(s, parent, offset, retries, rank)
            == if ListChildren(s, parent, false, offset, ListPageSize).1.status in ScriptRetryStatuses && retries < ScriptMaxRetries
               then ListAllPages(t, parent, offset, retries + 1, rank)
               else (t, [])
  {
  }

  /** A page that came back: its entries' listing, then the following pages. */
  lemma ListAllPagesDone(s: DriveState, parent: string, offset: nat, retries: nat, rank: map<string, nat>, u: DriveState, listed: seq<Item>)
    requires Ranked(s.items, rank) && retries <= ScriptMaxRetries
    requires ListChildren(s, parent, false, offset, ListPageSize).1.Done?
    requires var lc := ListChildren(s, parent, false, offset, ListPageSize);
             (u, listed) == ListAllEntries(lc.0, parent, lc.1.value.entries, |lc.1.value.entries|, rank)
    ensures var next := ListChildren(s, parent, false, offset, ListPageSize).1.value.next;
            ListAllPages(s, parent, offset, retries, rank)
            == if next.None? then (u, listed)
               else (ListAllPages(u, parent, next.value, retries, rank).0, listed + ListAllPages(u, parent, next.value, retries, rank).1)
  {
  }


  method ListAllItems(svc: DriveService, parent: string, rank: map<string, nat>) returns (all: seq<Item>)
    requires Ranked(svc.state.items, rank)
    modifies svc
    ensures (svc.state, all) == ListAll(old(svc.state), parent, rank)
    decreases ItemRank(parent, rank), 1
  {
    ghost var items := svc.state.items;
    ghost var target := ListAllPages(svc.state, parent, 0, 0, rank);
    all := [];
    assert all + target.1 == target.1;
    var offset: nat := 0;
    var retries: nat := 0;
    var done := false;
    while !done
      invariant svc.state.items == items && Ranked(items, rank) && retries <= ScriptMaxRetries
      invariant !done ==> target.0 == ListAllPages(svc.state, parent, offset, retries, rank).0
      invariant !done ==> target.1 == all + ListAllPages(svc.state, parent, offset, retries, rank).1
      invariant done ==> target == (svc.state, all)
      decreases !done, |ChildrenOf(items, parent, false)| - offset, ScriptMaxRetries - retries
    {
      ghost var before := svc.state;
      var reply := svc.List(parent, false, offset, ListPageSize);
      match reply {
        case Failed(st) =>
          ListAllPagesFailed(before, parent, offset, retries, rank);
          if st in ScriptRetryStatuses && retries < ScriptMaxRetries {
            retries := retries + 1;
          } else {
            assert all + [] == all;
            done := true;
          }
        case Done(page) =>
          var pageItems := ListPageItems(svc, parent, page.entries, rank);
          ListAllPagesDone(before, parent, offset, retries, rank, svc.state, pageItems);
          match page.next {
            case None =>
              all := all + pageItems;
              done := true;
            case Some(n) =>
              ghost var more := ListAllPages(svc.state, parent, n, retries, rank).1;
              ConcatAssoc(all, pageItems, more);
              all := all + pageItems;
              offset := n;
          }
      }
    }
  }

  /** The loop over the files of one page, recursing into folders. */
  method ListPageItems(svc: DriveService, parent: string, entries: seq<Item>, rank: map<string, nat>) returns (listed: seq<Item>)
    requires Ranked(svc.state.items, rank)
    requires forall e :: e in entries ==> e in ChildrenOf(svc.state.items, parent, false)
    modifies svc
    ensures (svc.state, listed) == ListAllEntries(old(svc.state), parent, entries, |entries|, rank)
    decreases ItemRank(parent, rank), 0
  {
    ghost var items := svc.state.items;
    listed := [];
    var j := 0;
    while j < |entries|
      invariant j <= |entries| && svc.state.items == items
      invariant (svc.state, listed) == ListAllEntries(old(svc.state), parent, entries, j, rank)
    {
      var it := entries[j];
      ChildBelow(items, rank, parent, false, entries, j);
      ghost var before := svc.state;
      listed := listed + [it];
      if IsFolder(it) {
        var sub := ListAllItems(svc, it.id, rank);
        assert ListAllEntries(old(svc.state), parent, entries, j + 1, rank) == (svc.state, listed + sub);
        listed := listed + sub;
      } else {
        assert ListAllEntries(old(svc.state), parent, entries, j + 1, rank) == (before, listed + []);
        assert listed + [] == listed;
      }
      j := j + 1;
    }
  }

  // ================================================================ flattened paths

  /** A path from the top: (id, name) of every item on the way. */
  type Path = seq<(string, string)>

  /** The names along a path. */
  function Names(path: Path): (names: seq<string>)
    ensures |names| == |path| && forall i :: 0 <= i < |path| ==> names[i] == path[i].1
  {
    seq(|path|, i requires 0 <= i < |path| => path[i].1)
  }

  /** The 'Full Path' cell: '/' followed by the names joined by '/'. */
  function FullPath(path: Path): (s: string)
    ensures s != [] && s[0] == '/'
    ensures |path| == 1 ==> s == "/" + path[0].1
  {
    "/" + Join("/", Names(path))
  }

  /** A path one step longer shows one more '/name' at the end. */
  lemma FullPathSnoc(path: Path, step: (string, string))
    requires path != []
    ensures FullPath(path + [step]) == FullPath(path) + "/" + step.1
  {
    assert Names(path + [step]) == Names(path) + [step.1];
    JoinSnoc("/", Names(path), step.1);
  }

  /** The path of an item's parent: every step but the last. */
  function ParentOf(r: Path): Path
    requires r != []
  {
    r[..|r| - 1]
  }

  /** Row i's parent path is `base` or a row that comes before it. */
  predicate ParentListed(rows: seq<Path>, i: nat, base: Path)
    requires i < |rows|
  {
    rows[i] != [] && ParentOf(rows[i]) in [base] + rows[..i]
  }

  /** Every row's parent path is listed before it: the rows are in preorder. */
  predicate ParentsBefore(rows: seq<Path>, base: Path) {
    forall i :: 0 <= i < |rows| ==> ParentListed(rows, i, base)
  }

  lemma ParentsBeforeConcat(a: seq<Path>, b: seq<Path>, base: Path)
    requires ParentsBefore(a, base) && ParentsBefore(b, base)
    ensures ParentsBefore(a + b, base)
  {
    var rows := a + b;
    forall i | 0 <= i < |rows|
      ensures ParentListed(rows, i, base)
    {
      if i < |a| {
        assert ParentListed(a, i, base);
        assert rows[..i] == a[..i];
      } else {
        var m := i - |a|;
        assert ParentListed(b, m, base);
        assert rows[i] == b[m];
        assert rows[..i] == a + b[..m];
      }
    }
  }

}
