/**
 * The single-email report script: everything under a root folder, each path
 * from the root flattened through a parent -> children map, and for every
 * path the role the target email holds there and whether the item is shared
 * broadly.
 */
module SingleEmail {
  import opened Wrappers
  import opened Text
  import opened Drive
  import opened Rows
  import opened ScriptDrive

  /** The target as the script uses it: stripped and lower-cased. */
  function Target(email: string): (t: string)
    ensures |t| <= |email|
    ensures forall i :: 0 <= i < |t| ==> !IsUpper(t[i])
  {
    StripIsShorter(email);
    Lower(Strip(email))
  }

  lemma StripIsShorter(s: string)
    ensures |Strip(s)| <= |s|
  {
    TrimLeftFacts(s);
    TrimRightFacts(TrimLeft(s));
  }

  // ================================================================ parent_map

  /** n copies of an item. */
  function Copies(it: Item, n: nat): (r: seq<Item>)
    ensures |r| == n && forall i :: 0 <= i < n ==> r[i] == it
  {
    seq(n, _ => it)
  }

  /** How many times p occurs in a parents list. */
  function Count(ps: seq<string>, p: string): nat {
    if ps == [] then 0 else Count(ps[..|ps| - 1], p) + (if ps[|ps| - 1] == p then 1 else 0)
  }

  /** parent_map[p] once `items` are processed: each item once for every time it names p as a parent, in listing order. */
  function Under(items: seq<Item>, p: string): (r: seq<Item>)
    ensures forall c :: c in r ==> c in items && p in c.parents
  {
    if items == [] then []
    else
      var last := items[|items| - 1];
      var before := Under(items[..|items| - 1], p);
      assert forall c :: c in items[..|items| - 1] ==> c in items;
      if Count(last.parents, p) > 0 then
        CountPositive(last.parents, p);
        before + Copies(last, Count(last.parents, p))
      else before
  }

  lemma {:induction false} CountPositive(ps: seq<string>, p: string)
    requires Count(ps, p) > 0
    ensures p in ps
  {
    if ps[|ps| - 1] != p {
      CountPositive(ps[..|ps| - 1], p);
    }
  }

  /** parent_map.get(p, []) */
  function ChildList(m: map<string, seq<Item>>, p: string): seq<Item> {
    if p in m then m[p] else []
  }

  /** parent_map after `it` is appended under each of the parents ps, one after another. */
  function AddUnder(m: map<string, seq<Item>>, it: Item, ps: seq<string>): (r: map<string, seq<Item>>)
    ensures forall p :: p in r <==> p in m || p in ps
  {
    if ps == [] then m
    else
      var before := AddUnder(m, it, ps[..|ps| - 1]);
      before[ps[|ps| - 1] := ChildList(before, ps[|ps| - 1]) + [it]]
  }

  /** parent_map once the loops have processed `items`. */
  function ParentMapOf(items: seq<Item>): (m: map<string, seq<Item>>)
    ensures forall p :: p in m <==> exists k :: 0 <= k < |items| && p in items[k].parents
  {
    if items == [] then map[]
    else
      var last := items[|items| - 1];
      var before := items[..|items| - 1];
      assert forall k :: 0 <= k < |before| ==> before[k] == items[k];
      AddUnder(ParentMapOf(before), last, last.parents)
  }

  lemma {:induction false} AddUnderList(m: map<string, seq<Item>>, it: Item, ps: seq<string>, p: string)
    ensures ChildList(AddUnder(m, it, ps), p) == ChildList(m, p) + Copies(it, Count(ps, p))
  {
    if ps != [] {
      AddUnderList(m, it, ps[..|ps| - 1], p);
    }
  }

  /** parent_map.get(p, []) lists each item once for every time it names p as a parent, in listing order. */
  lemma {:induction false} ParentMapOfUnder(items: seq<Item>, p: string)
    ensures ChildList(ParentMapOf(items), p) == Under(items, p)
  {
    if items != [] {
      var last := items[|items| - 1];
      ParentMapOfUnder(items[..|items| - 1], p);
      AddUnderList(ParentMapOf(items[..|items| - 1]), last, last.parents, p);
    }
  }

  /** The loops that build parent_map with setdefault(p, []).append(it). */
  method ParentMap(items: seq<Item>) returns (m: map<string, seq<Item>>)
    ensures m == ParentMapOf(items)
  {
    m := map[];
    for n := 0 to |items|
      invariant m == ParentMapOf(items[..n])
    {
      var it := items[n];
      ghost var start := m;
      for j := 0 to |it.parents|
        invariant m == AddUnder(start, it, it.parents[..j])
      {
        var q := it.parents[j];
        m := m[q := ChildList(m, q) + [it]];
        assert it.parents[..j + 1][..j] == it.parents[..j];
      }
      assert it.parents[..|it.parents|] == it.parents;
      assert items[..n + 1][..n] == items[..n];
    }
    assert items[..|items|] == items;
  }

  /** A parents list without repetitions. */
  predicate DistinctParents(it: Item) {
    forall i, j :: 0 <= i < j < |it.parents| ==> it.parents[i] != it.parents[j]
  }

  lemma {:induction false} CountDistinct(ps: seq<string>, p: string)
    requires forall i, j :: 0 <= i < j < |ps| ==> ps[i] != ps[j]
    ensures Count(ps, p) == if p in ps then 1 else 0
  {
    if ps != [] {
      var init := ps[..|ps| - 1];
      CountDistinct(init, p);
      assert forall x :: x in ps <==> x in init || x == ps[|ps| - 1];
    }
  }

  /** The children of a folder among items ending with `last`. */
  lemma ChildrenOfSnoc(items: seq<Item>, last: Item, p: string)
    ensures ChildrenOf(items + [last], p, false) == ChildrenOf(items, p, false) + (if p in last.parents then [last] else [])
  {
    if items != [] {
      assert (items + [last])[1..] == items[1..] + [last];
      ChildrenOfSnoc(items[1..], last, p);
    }
  }

  /**
   * When no item names a parent twice, parent_map[p] lists exactly the
   * children of p, each once, in listing order.
   */
  lemma {:induction false} UnderIsChildren(items: seq<Item>, p: string)
    requires forall it :: it in items ==> DistinctParents(it)
    ensures Under(items, p) == ChildrenOf(items, p, false)
  {
    if items != [] {
      var init := items[..|items| - 1];
      var last := items[|items| - 1];
      assert forall it :: it in init ==> it in items;
      UnderIsChildren(init, p);
      assert last in items;
      CountDistinct(last.parents, p);
      if p in last.parents {
        assert Copies(last, 1) == [last];
        assert Under(items, p) == Under(init, p) + [last];
      } else {
        assert Under(items, p) == Under(init, p);
      }
      assert init + [last] == items;
      ChildrenOfSnoc(init, last, p);
    }
  }

  // ================================================================ recurse

  /** Every child in the map ranks below the parent it is listed under. */
  predicate ChildrenBelow(m: map<string, seq<Item>>, rank: map<string, nat>) {
    forall p :: p in m ==> forall c :: c in m[p] ==> ItemRank(c.id, rank) < ItemRank(p, rank)
  }

  /** parent_map built from ranked items has every child below its parent. */
  lemma ParentMapBelow(items: seq<Item>, rank: map<string, nat>)
    requires Ranked(items, rank)
    ensures ChildrenBelow(ParentMapOf(items), rank)
  {
    var m := ParentMapOf(items);
    forall p: string, c: Item | p in m && c in m[p]
      ensures ItemRank(c.id, rank) < ItemRank(p, rank)
    {
      ParentMapOfUnder(items, p);
      assert ChildList(m, p) == m[p];
      assert c in items && p in c.parents;
    }
  }

  /**
   * recurse(item, current_path): the item's own path first, then each child's
   * flattening; every row extends the item's path.
   */
  function Recurse(m: map<string, seq<Item>>, item: Item, path: Path, rank: map<string, nat>): (rows: seq<Path>)
    requires ChildrenBelow(m, rank)
    ensures rows != [] && rows[0] == path + [(item.id, item.name)]
    ensures forall r :: r in rows ==> rows[0] <= r
    decreases ItemRank(item.id, rank), 1
  {
    var current := path + [(item.id, item.name)];
    var below := RecurseAll(m, ChildList(m, item.id), |ChildList(m, item.id)|, current, ItemRank(item.id, rank), rank);
    [current] + below
  }

  /** The flattenings of the first n children, one after another. */
  function RecurseAll(m: map<string, seq<Item>>, cs: seq<Item>, n: nat, current: Path, bound: nat, rank: map<string, nat>)
    : (rows: seq<Path>)
    requires ChildrenBelow(m, rank) && n <= |cs|
    requires forall c :: c in cs ==> ItemRank(c.id, rank) < bound
    ensures forall r :: r in rows ==> current <= r && |r| > |current|
    decreases bound, 0, n
  {
    if n == 0 then []
    else
      assert cs[n - 1] in cs;
      RecurseAll(m, cs, n - 1, current, bound, rank) + Recurse(m, cs[n - 1], current, rank)
  }

  /** recurse lists a path only after the path of its parent. */
  lemma {:induction false} RecursePreorder(m: map<string, seq<Item>>, item: Item, path: Path, rank: map<string, nat>)
    requires ChildrenBelow(m, rank)
    ensures ParentsBefore(Recurse(m, item, path, rank), path)
    decreases ItemRank(item.id, rank), 1
  {
    var current := path + [(item.id, item.name)];
    var cs := ChildList(m, item.id);
    var below := RecurseAll(m, cs, |cs|, current, ItemRank(item.id, rank), rank);
    RecurseAllPreorder(m, cs, |cs|, current, ItemRank(item.id, rank), rank);
    var rows := [current] + below;
    assert ParentOf(current) == path;
    assert ParentListed(rows, 0, path);
    forall i | 0 < i < |rows|
      ensures ParentListed(rows, i, path)
    {
      assert ParentListed(below, i - 1, current);
      assert rows[i] == below[i - 1];
      assert [current] + below[..i - 1] == rows[..i];
    }
  }

  lemma {:induction false} RecurseAllPreorder(m: map<string, seq<Item>>, cs: seq<Item>, n: nat, current: Path, bound: nat, rank: map<string, nat>)
    requires ChildrenBelow(m, rank) && n <= |cs|
    requires forall c :: c in cs ==> ItemRank(c.id, rank) < bound
    ensures ParentsBefore(RecurseAll(m, cs, n, current, bound, rank), current)
    decreases bound, 0, n
  {
    if n > 0 {
      var before := RecurseAll(m, cs, n - 1, current, bound, rank);
      RecurseAllPreorder(m, cs, n - 1, current, bound, rank);
      assert cs[n - 1] in cs;
      var sub := Recurse(m, cs[n - 1], current, rank);
      RecursePreorder(m, cs[n - 1], current, rank);
      assert RecurseAll(m, cs, n, current, bound, rank) == before + sub;
      ParentsBeforeConcat(before, sub, current);
    }
  }

  /** recurse covers every child: each child's flattening from the item's own path is part of the item's flattening. */
  lemma {:induction false} RecurseHasChildren(m: map<string, seq<Item>>, item: Item, path: Path, rank: map<string, nat>)
    requires ChildrenBelow(m, rank)
    ensures var current := path + [(item.id, item.name)];
            forall c, r :: c in ChildList(m, item.id) && r in Recurse(m, c, current, rank) ==> r in Recurse(m, item, path, rank)
  {
    var current := path + [(item.id, item.name)];
    var cs := ChildList(m, item.id);
    RecurseAllCovers(m, cs, |cs|, current, ItemRank(item.id, rank), rank);
    var below := RecurseAll(m, cs, |cs|, current, ItemRank(item.id, rank), rank);
    var rows := Recurse(m, item, path, rank);
    assert rows == [current] + below;
    forall c, r | c in cs && r in Recurse(m, c, current, rank)
      ensures r in rows
    {
      var j :| 0 <= j < |cs| && cs[j] == c;
      assert r in below;
    }
  }

  /** recurse lists nothing else: every row after the item's own path comes from some child's flattening. */
  lemma {:induction false} RecurseRowsFromChildren(m: map<string, seq<Item>>, item: Item, path: Path, rank: map<string, nat>)
    requires ChildrenBelow(m, rank)
    ensures var current := path + [(item.id, item.name)];
            var rows := Recurse(m, item, path, rank);
            forall i :: 0 < i < |rows| ==> exists c :: c in ChildList(m, item.id) && rows[i] in Recurse(m, c, current, rank)
  {
    var current := path + [(item.id, item.name)];
    var cs := ChildList(m, item.id);
    RecurseAllCovers(m, cs, |cs|, current, ItemRank(item.id, rank), rank);
    var rows := Recurse(m, item, path, rank);
    forall i | 0 < i < |rows|
      ensures exists c :: c in cs && rows[i] in Recurse(m, c, current, rank)
    {
      assert rows[i] in RecurseAll(m, cs, |cs|, current, ItemRank(item.id, rank), rank);
      var j :| 0 <= j < |cs| && rows[i] in Recurse(m, cs[j], current, rank);
      assert cs[j] in cs;
    }
  }

  /** The flattenings of the first n children are exactly what RecurseAll lists. */
  lemma {:induction false} RecurseAllCovers(m: map<string, seq<Item>>, cs: seq<Item>, n: nat, current: Path, bound: nat, rank: map<string, nat>)
    requires ChildrenBelow(m, rank) && n <= |cs|
    requires forall c :: c in cs ==> ItemRank(c.id, rank) < bound
    ensures forall j, r :: 0 <= j < n && r in Recurse(m, cs[j], current, rank) ==> r in RecurseAll(m, cs, n, current, bound, rank)
    ensures forall r :: r in RecurseAll(m, cs, n, current, bound, rank) ==> exists j :: 0 <= j < n && r in Recurse(m, cs[j], current, rank)
  {
    if n > 0 {
      RecurseAllCovers(m, cs, n - 1, current, bound, rank);
      assert cs[n - 1] in cs;
      var before := RecurseAll(m, cs, n - 1, current, bound, rank);
      var sub := Recurse(m, cs[n - 1], current, rank);
      var all := RecurseAll(m, cs, n, current, bound, rank);
      assert all == before + sub;
      forall j, r | 0 <= j < n && r in Recurse(m, cs[j], current, rank)
        ensures r in all
      {
        if j < n - 1 {
          assert r in before;
        }
      }
      forall r | r in all
        ensures exists j :: 0 <= j < n && r in Recurse(m, cs[j], current, rank)
      {
        if r !in sub {
          assert r in before;
        }
      }
    }
  }

  // ================================================================ rows

  /** The position of the first permission from i on whose lower-cased email is the target. */
  function FirstMatch(ps: seq<Permission>, target: string, i: nat): (o: Option<nat>)
    requires i <= |ps|
    ensures o.None? ==> forall j :: i <= j < |ps| ==> Lower(ps[j].emailAddress) != target
    ensures o.Some? ==> i <= o.value < |ps| && Lower(ps[o.value].emailAddress) == target &&
                        forall j :: i <= j < o.value ==> Lower(ps[j].emailAddress) != target
    decreases |ps| - i
  {
    if i == |ps| then None
    else if Lower(ps[i].emailAddress) == target then Some(i)
    else FirstMatch(ps, target, i + 1)
  }

  /**
   * next((p['role'] for p in perms if p.get('emailAddress', '').lower() == target), 'No Access'):
   * the role of the first permission whose lower-cased address is the
   * target, 'No Access' when none is.
   */
  function RoleFor(ps: seq<Permission>, target: string): (r: string)
    ensures (forall i :: 0 <= i < |ps| ==> Lower(ps[i].emailAddress) != target) ==> r == "No Access"
    ensures forall i ::
              (0 <= i < |ps| && Lower(ps[i].emailAddress) == target &&
               forall j :: 0 <= j < i ==> Lower(ps[j].emailAddress) != target) ==> r == ps[i].role
  {
    match FirstMatch(ps, target, 0)
    case None => "No Access"
    case Some(i) => ps[i].role
  }

  function Headers(target: string): (h: seq<string>)
    ensures |h| == 4
  {
    ["Item Path", "Item ID", "Role for " + target, "General Access"]
  }

  /** The output row for one path, given the permissions fetched for its item. */
  function OutputRow(path: Path, ps: seq<Permission>, target: string): (row: seq<string>)
    requires path != []
    ensures |row| == |Headers(target)|
    ensures row[0] == FullPath(path) && row[1] == path[|path| - 1].0
    ensures row[2] == RoleFor(ps, target) && row[3] == HasGeneralAccess(ps)
  {
    [FullPath(path), path[|path| - 1].0, RoleFor(ps, target), HasGeneralAccess(ps)]
  }

  /** The item each path ends at, in order. */
  function PathIds(flattened: seq<Path>): (ids: seq<string>)
    requires forall i :: 0 <= i < |flattened| ==> flattened[i] != []
    ensures |ids| == |flattened| && forall i :: 0 <= i < |flattened| ==> ids[i] == flattened[i][|flattened[i]| - 1].0
  {
    seq(|flattened|, i requires 0 <= i < |flattened| => flattened[i][|flattened[i]| - 1].0)
  }

  /** The rows for the paths whose permissions have been fetched, one row per path in order. */
  function OutputRows(flattened: seq<Path>, fetched: seq<seq<Permission>>, target: string): (rows: seq<seq<string>>)
    requires |fetched| <= |flattened|
    requires forall i :: 0 <= i < |flattened| ==> flattened[i] != []
    ensures |rows| == |fetched|
    ensures forall i :: 0 <= i < |fetched| ==> rows[i] == OutputRow(flattened[i], fetched[i], target)
  {
    seq(|fetched|, i requires 0 <= i < |fetched| => OutputRow(flattened[i], fetched[i], target))
  }

  /** One more fetched list adds the row of the next path. */
  lemma OutputRowsSnoc(flattened: seq<Path>, fetched: seq<seq<Permission>>, ps: seq<Permission>, target: string)
    requires |fetched| < |flattened|
    requires forall i :: 0 <= i < |flattened| ==> flattened[i] != []
    ensures OutputRows(flattened, fetched + [ps], target) == OutputRows(flattened, fetched, target) + [OutputRow(flattened[|fetched|], ps, target)]
  {
    var fetched' := fetched + [ps];
    assert forall i :: 0 <= i < |fetched| ==> fetched'[i] == fetched[i];
  }

  /** The loop over flattened. */
  method BuildRows(svc: DriveService, flattened: seq<Path>, target: string) returns (rows: seq<seq<string>>)
    requires forall i :: 0 <= i < |flattened| ==> flattened[i] != []
    modifies svc
    ensures var (t, fetched) := FetchedFor(old(svc.state), PathIds(flattened), |flattened|);
            svc.state == t && rows == OutputRows(flattened, fetched, target)
  {
    rows := [];
    ghost var fetched: seq<seq<Permission>> := [];
    ghost var ids := PathIds(flattened);
    for n := 0 to |flattened|
      invariant FetchedFor(old(svc.state), ids, n) == (svc.state, fetched)
      invariant rows == OutputRows(flattened, fetched, target)
    {
      var path := flattened[n];
      var itemId := path[|path| - 1].0;
      assert ids[n] == itemId;
      var perms := FetchPermissions(svc, itemId, ScriptMaxRetries);
      var role := RoleFor(perms, target);
      var general := HasGeneralAccess(perms);
      var row := [FullPath(path), itemId, role, general];
      assert row == OutputRow(path, perms, target);
      OutputRowsSnoc(flattened, fetched, perms, target);
      rows := rows + [row];
      fetched := fetched + [perms];
    }
  }

  // ================================================================ main

  /** Items taken from a ranked listing are ranked. */
  lemma RankedListed(all: seq<Item>, items: seq<Item>, rank: map<string, nat>)
    requires Ranked(all, rank) && forall it :: it in items ==> it in all
    ensures Ranked(items, rank)
  {
  }

  /** What main produces: the header and rows, or the exception files().get(root) raised. */
  datatype Report = Report(headers: seq<string>, rows: seq<seq<string>>)

  /** main, from the Drive state: list, fetch the root, build parent_map, flatten from the root and build the rows. */
  function SingleEmailReport(s: DriveState, email: string, root: string, rank: map<string, nat>): (r: (DriveState, Run<Report>))
    requires Ranked(s.items, rank)
    ensures r.1.Returned? ==> |r.1.value.headers| == 4 && forall row :: row in r.1.value.rows ==> |row| == 4
  {
    var target := Target(email);
    var listing := ListAll(s, root, rank);
    var items := listing.1;
    var got := GetItem(listing.0, root);
    var u := got.0;
    match got.1
    case Failed(st) => (u, Raised("HttpError"))
    case Done(rootMeta) =>
      var m := ParentMapOf(items);
      RankedListed(s.items, items, rank);
      ParentMapBelow(items, rank);
      var flattened := Recurse(m, rootMeta, [], rank);
      assert forall i :: 0 <= i < |flattened| ==> flattened[i] in flattened;
      var fetched := FetchedFor(u, PathIds(flattened), |flattened|);
      (fetched.0, Returned(Report(Headers(target), OutputRows(flattened, fetched.1, target))))
  }

  /** main: list everything under the root, fetch the root's metadata, build parent_map, flatten and build the rows. */
  method ReportForEmail(svc: DriveService, email: string, root: string, rank: map<string, nat>) returns (r: Run<Report>)
    requires Ranked(svc.state.items, rank)
    modifies svc
    ensures (svc.state, r) == SingleEmailReport(old(svc.state), email, root, rank)
  {
    var target := Lower(Strip(email));
    var items := ListAllItems(svc, root, rank);
    var meta := svc.Get(root);
    if meta.Failed? {
      return Raised("HttpError");
    }
    var rootMeta := meta.value;
    var parentMap := ParentMap(items);
    RankedListed(old(svc.state).items, items, rank);
    ParentMapBelow(items, rank);
    var flattened := Recurse(parentMap, rootMeta, [], rank);
    assert forall i :: 0 <= i < |flattened| ==> flattened[i] in flattened;
    var rows := BuildRows(svc, flattened, target);
    return Returned(Report(Headers(target), rows));
  }
}
