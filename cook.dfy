/**
 * The permission-matrix script: a name/title lookup read from three sheet
 * ranges, the folder tree rebuilt from the recursive listing and flattened
 * into paths, and one row per path with one cell per email address found
 * among all the permissions, under three header rows.
 */
module PermissionsCook {
  import opened Wrappers
  import opened Text
  import opened Sorting
  import opened Drive
  import opened Rows
  import opened ScriptDrive

  // ================================================================ get_email_to_name_title_mapping

  /**
   * A sheet row the mapping keeps: at least three cells and a non-empty
   * email cell. The test is on the cell before it is stripped, so a cell of
   * white space only is kept.
   */
  function KeptRow(row: seq<string>): (b: bool)
    ensures b <==> |row| >= 3 && |row[1]| > 0
  {
    |row| >= 3 && row[1] != ""
  }

  /**
   * The key of a kept row: its email cell stripped and lower-cased, so it has
   * no upper-case letter and no white space at either end; a cell of white
   * space only gives the key "".
   */
  function KeyOf(row: seq<string>): (k: string)
    requires |row| >= 2
    ensures forall i :: 0 <= i < |k| ==> !IsUpper(k[i])
    ensures k == [] || (!IsSpace(k[0]) && !IsSpace(k[|k| - 1]))
    ensures (forall i :: 0 <= i < |row[1]| ==> IsSpace(row[1][i])) ==> k == ""
  {
    StripCases(row[1]);
    Lower(Strip(row[1]))
  }

  /** A row with three cells whose email cell is only white space is kept, under the key "". */
  lemma SpaceEmailKept(row: seq<string>)
    requires |row| >= 3 && |row[1]| > 0 && forall i :: 0 <= i < |row[1]| ==> IsSpace(row[1][i])
    ensures KeptRow(row) && KeyOf(row) == ""
  {
  }

  /**
   * The value of a kept row: its name and title cells, stripped, so neither
   * has white space at either end; a cell without such white space is kept
   * as it is.
   */
  function EntryOf(row: seq<string>): (v: (string, string))
    requires |row| >= 3
    ensures v.0 == [] || (!IsSpace(v.0[0]) && !IsSpace(v.0[|v.0| - 1]))
    ensures v.1 == [] || (!IsSpace(v.1[0]) && !IsSpace(v.1[|v.1| - 1]))
    ensures row[0] == [] || (!IsSpace(row[0][0]) && !IsSpace(row[0][|row[0]| - 1])) ==> v.0 == row[0]
    ensures row[2] == [] || (!IsSpace(row[2][0]) && !IsSpace(row[2][|row[2]| - 1])) ==> v.1 == row[2]
  {
    StripCases(row[0]);
    StripCases(row[2]);
    (Strip(row[0]), Strip(row[2]))
  }

  /** The mapping built from the first n rows. */
  function MappingOf(rows: seq<seq<string>>, n: nat): (m: map<string, (string, string)>)
    requires n <= |rows|
    ensures forall i :: 0 <= i < n && KeptRow(rows[i]) ==> KeyOf(rows[i]) in m
  {
    if n == 0 then map[]
    else if KeptRow(rows[n - 1]) then
      MappingOf(rows, n - 1)[KeyOf(rows[n - 1]) := EntryOf(rows[n - 1])]
    else MappingOf(rows, n - 1)
  }

  predicate KeptWithKey(rows: seq<seq<string>>, i: nat, e: string)
    requires i < |rows|
  {
    KeptRow(rows[i]) && KeyOf(rows[i]) == e
  }

  /** The last of the first n rows that is kept and has key e, if any. */
  function LastWithKey(rows: seq<seq<string>>, n: nat, e: string): (o: Option<nat>)
    requires n <= |rows|
    ensures o.None? ==> forall i :: 0 <= i < n ==> !KeptWithKey(rows, i, e)
    ensures o.Some? ==> o.value < n && KeptWithKey(rows, o.value, e) &&
                        forall j :: o.value < j < n ==> !KeptWithKey(rows, j, e)
  {
    if n == 0 then None
    else if KeptWithKey(rows, n - 1, e) then Some(n - 1)
    else LastWithKey(rows, n - 1, e)
  }

  /**
   * An address is in the mapping iff some kept row has it as key, and then
   * it maps to the entry of the last such row: later rows override earlier
   * ones.
   */
  lemma {:induction false} MappingLookup(rows: seq<seq<string>>, n: nat, e: string)
    requires n <= |rows|
    ensures e in MappingOf(rows, n) <==> LastWithKey(rows, n, e).Some?
    ensures e in MappingOf(rows, n) ==> MappingOf(rows, n)[e] == EntryOf(rows[LastWithKey(rows, n, e).value])
  {
    if n > 0 {
      MappingLookup(rows, n - 1, e);
    }
  }

  /** The loop over the rows of one response. */
  method ParseMapping(rows: seq<seq<string>>) returns (mapping: map<string, (string, string)>)
    ensures mapping == MappingOf(rows, |rows|)
  {
    mapping := map[];
    for k := 0 to |rows|
      invariant mapping == MappingOf(rows, k)
    {
      var row := rows[k];
      if |row| >= 3 && row[1] != "" {
        mapping := mapping[Lower(Strip(row[1])) := (Strip(row[0]), Strip(row[2]))];
      }
    }
  }

  /**
   * get_email_to_name_title_mapping, with `retries` retries made: the sheet
   * service answers from `answers` (without error once exhausted) with the
   * rows `values`; the result is the number of requests made and the
   * mapping, empty after an error that is not retried.
   */
  function MappingFetch(answers: seq<Outcome>, values: seq<seq<string>>, maxRetries: nat, retries: nat): (r: (nat, map<string, (string, string)>))
    ensures r.0 <= (if retries < maxRetries then maxRetries - retries else 0)
    ensures r.1 == map[] || r.1 == MappingOf(values, |values|)
    decreases maxRetries - retries
  {
    if retries >= maxRetries then (0, map[])
    else
      var o := if answers == [] then Ok else answers[0];
      match o
      case Ok => (1, MappingOf(values, |values|))
      case HttpError(st) =>
        if st in ScriptRetryStatuses then
          var more := MappingFetch(if answers == [] then [] else answers[1..], values, maxRetries, retries + 1);
          (more.0 + 1, more.1)
        else (1, map[])
  }

  /** A sheet that answers at once gives the mapping of its rows after one request. */
  lemma MappingFetchAnswered(answers: seq<Outcome>, values: seq<seq<string>>, maxRetries: nat)
    requires maxRetries > 0 && (answers == [] || answers[0].Ok?)
    ensures MappingFetch(answers, values, maxRetries, 0) == (1, MappingOf(values, |values|))
  {
  }

  method GetEmailToNameTitleMapping(answers: seq<Outcome>, values: seq<seq<string>>, maxRetries: nat)
    returns (calls: nat, mapping: map<string, (string, string)>)
    ensures (calls, mapping) == MappingFetch(answers, values, maxRetries, 0)
  {
    var script := answers;
    var retries := 0;
    calls := 0;
    while retries < maxRetries
      invariant retries <= maxRetries
      invariant MappingFetch(answers, values, maxRetries, 0).0 == calls + MappingFetch(script, values, maxRetries, retries).0
      invariant MappingFetch(answers, values, maxRetries, 0).1 == MappingFetch(script, values, maxRetries, retries).1
      decreases maxRetries - retries
    {
      var o := if script == [] then Ok else script[0];
      script := if script == [] then [] else script[1..];
      calls := calls + 1;
      match o
      case Ok =>
        mapping := ParseMapping(values);
        return;
      case HttpError(st) =>
        if st in ScriptRetryStatuses {
          retries := retries + 1;
        } else {
          break;
        }
    }
    mapping := map[];
  }

  /** {**sponsors, **bio, **second}: a later map wins on a shared address. */
  function NameTitles(sponsors: map<string, (string, string)>, bio: map<string, (string, string)>,
                      second: map<string, (string, string)>): (m: map<string, (string, string)>)
    ensures m.Keys == sponsors.Keys + bio.Keys + second.Keys
    ensures forall e :: e in m ==> m[e] == if e in second then second[e] else if e in bio then bio[e] else sponsors[e]
  {
    sponsors + bio + second
  }

  // ================================================================ build_item_hierarchy

  /** item_map over the first n items: each id names the last item carrying it. */
  function IdIndex(items: seq<Item>, n: nat): (m: map<string, nat>)
    requires n <= |items|
    ensures forall id :: id in m ==> m[id] < n && items[m[id]].id == id
  {
    if n == 0 then map[] else IdIndex(items, n - 1)[items[n - 1].id := n - 1]
  }

  /** Every id among the first n is in item_map, naming the last item that carries it. */
  lemma {:induction false} IdIndexLast(items: seq<Item>, n: nat, k: nat)
    requires k < n <= |items|
    ensures items[k].id in IdIndex(items, n) && k <= IdIndex(items, n)[items[k].id]
  {
    if k < n - 1 {
      IdIndexLast(items, n - 1, k);
    }
  }

  /**
   * Where build_item_hierarchy puts item k (by position in the listing):
   * under the last item carrying its first parent's id when that id is
   * listed, otherwise (None) among the roots.
   */
  function Placement(items: seq<Item>, k: nat): (o: Option<nat>)
    requires k < |items|
    ensures o.Some? ==> items[k].parents != [] && o.value < |items| && items[o.value].id == items[k].parents[0]
    ensures o.Some? ==> forall i :: o.value < i < |items| ==> items[i].id != items[k].parents[0]
    ensures o.None? ==> items[k].parents == [] || forall i :: 0 <= i < |items| ==> items[i].id != items[k].parents[0]
  {
    var ps := items[k].parents;
    var itemMap := IdIndex(items, |items|);
    if ps != [] && ps[0] in itemMap then
      forall i | itemMap[ps[0]] < i < |items|
        ensures items[i].id != ps[0]
      {
        if items[i].id == ps[0] {
          IdIndexLast(items, |items|, i);
        }
      }
      Some(itemMap[ps[0]])
    else
      forall i | 0 <= i < |items| && ps != []
        ensures items[i].id != ps[0]
      {
        if items[i].id == ps[0] {
          IdIndexLast(items, |items|, i);
        }
      }
      None
  }

  /** The positions among the first n placed at `o`, in listing order. */
  function Placed(items: seq<Item>, n: nat, o: Option<nat>): (ks: seq<nat>)
    requires n <= |items|
    ensures forall x :: x in ks ==> x < n
    ensures forall k :: 0 <= k < n ==> (k in ks <==> Placement(items, k) == o)
    ensures forall i, j :: 0 <= i < j < |ks| ==> ks[i] < ks[j]
  {
    if n == 0 then []
    else
      var before := Placed(items, n - 1, o);
      if Placement(items, n - 1) == o then
        assert forall i :: 0 <= i < |before| ==> before[i] in before;
        before + [n - 1]
      else before
  }

  /** Each folder's subitems (by position), and the roots. */
  datatype Hierarchy = Hierarchy(subitems: map<nat, seq<nat>>, roots: seq<nat>)

  /** The positions of the folders among the first n items. */
  function FolderSlots(items: seq<Item>, n: nat): (m: set<nat>)
    requires n <= |items|
    ensures forall x :: x in m ==> x < n
    ensures forall k :: 0 <= k < n ==> (k in m <==> IsFolder(items[k]))
  {
    if n == 0 then {}
    else if IsFolder(items[n - 1]) then FolderSlots(items, n - 1) + {n - 1}
    else FolderSlots(items, n - 1)
  }

  /** Every folder's subitems list before any item is placed. */
  function EmptyLists(items: seq<Item>): map<nat, seq<nat>> {
    var empty: seq<nat> := [];
    map k | k in FolderSlots(items, |items|) :: empty
  }

  /** The hierarchy after the first n items are placed; a KeyError when an item's parent is listed but is not a folder. */
  function Hier(items: seq<Item>, n: nat): (r: Run<Hierarchy>)
    requires n <= |items|
    ensures r.Returned? ==> |r.value.roots| <= n && r.value.subitems.Keys == FolderSlots(items, |items|)
  {
    if n == 0 then Returned(Hierarchy(EmptyLists(items), []))
    else
      match Hier(items, n - 1)
      case Raised(e) => Raised(e)
      case Returned(h) =>
        match Placement(items, n - 1)
        case None => Returned(h.(roots := h.roots + [n - 1]))
        case Some(j) =>
          if j in h.subitems then Returned(h.(subitems := h.subitems[j := h.subitems[j] + [n - 1]]))
          else Raised(KeyError("subitems"))
  }

  /** Every item placed under another among the first n is placed under a folder. */
  predicate UnderFolders(items: seq<Item>, n: nat)
    requires n <= |items|
  {
    forall k :: 0 <= k < n && Placement(items, k).Some? ==> IsFolder(items[Placement(items, k).value])
  }

  /** The roots are the items placed nowhere, in listing order. */
  lemma {:induction false} HierShape(items: seq<Item>, n: nat)
    requires n <= |items| && Hier(items, n).Returned?
    ensures Hier(items, n).value.roots == Placed(items, n, None)
  {
    if n > 0 {
      HierShape(items, n - 1);
    }
  }

  /** build_item_hierarchy fails iff some item's first parent is listed but is not a folder. */
  lemma {:induction false} HierReturned(items: seq<Item>, n: nat)
    requires n <= |items|
    ensures Hier(items, n).Returned? <==> UnderFolders(items, n)
  {
    if n > 0 {
      HierReturned(items, n - 1);
      if Hier(items, n - 1).Returned? && Placement(items, n - 1).Some? {
        HierShape(items, n - 1);
        var j := Placement(items, n - 1).value;
        assert j in FolderSlots(items, |items|) <==> IsFolder(items[j]);
      }
    }
  }

  /**
   * build_item_hierarchy: each folder's subitems are the items whose first
   * parent names it, each once and in listing order.
   */
  lemma {:induction false} HierSubitems(items: seq<Item>, n: nat)
    requires n <= |items| && Hier(items, n).Returned?
    ensures forall j :: j in Hier(items, n).value.subitems ==> Hier(items, n).value.subitems[j] == Placed(items, n, Some(j))
  {
    if n > 0 {
      HierSubitems(items, n - 1);
    }
  }

  /** Once an item cannot be placed, build_item_hierarchy ends with that KeyError. */
  lemma {:induction false} HierRaisedSticks(items: seq<Item>, j: nat, n: nat)
    requires j <= n <= |items| && Hier(items, j).Raised?
    ensures Hier(items, n) == Hier(items, j)
    decreases n - j
  {
    if j < n {
      HierRaisedSticks(items, j, n - 1);
    }
  }

  /** The first loop: an empty subitems list for every folder. */
  method EmptySubitems(items: seq<Item>) returns (subitems: map<nat, seq<nat>>)
    ensures subitems.Keys == FolderSlots(items, |items|)
    ensures forall j :: j in subitems ==> subitems[j] == []
  {
    subitems := map[];
    for k := 0 to |items|
      invariant subitems.Keys == FolderSlots(items, k)
      invariant forall j :: j in subitems ==> subitems[j] == []
    {
      if items[k].mimeType == FolderMime {
        subitems := subitems[k := []];
      }
    }
  }

  method BuildItemHierarchy(items: seq<Item>) returns (r: Run<Hierarchy>)
    ensures r == Hier(items, |items|)
  {
    var subitems := EmptySubitems(items);
    assert subitems == EmptyLists(items);
    r := PlaceItems(items, Hierarchy(subitems, []));
  }

  /** The second loop: each item appended to its parent's subitems, or to the roots. */
  method PlaceItems(items: seq<Item>, start: Hierarchy) returns (r: Run<Hierarchy>)
    requires start == Hierarchy(EmptyLists(items), [])
    ensures r == Hier(items, |items|)
  {
    var itemMap := IdIndex(items, |items|);
    var h := start;
    var k: nat := 0;
    while k < |items|
      invariant k <= |items| && Hier(items, k) == Returned(h)
    {
      var parents := items[k].parents;
      if parents != [] && parents[0] in itemMap {
        var j := itemMap[parents[0]];
        if j !in h.subitems {
          HierRaisedSticks(items, k + 1, |items|);
          return Raised(KeyError("subitems"));
        }
        h := h.(subitems := h.subitems[j := h.subitems[j] + [k]]);
      } else {
        h := h.(roots := h.roots + [k]);
      }
      k := k + 1;
    }
    return Returned(h);
  }

  // ================================================================ flatten_hierarchy

  /** item.get('subitems', []) */
  function Subitems(h: Hierarchy, k: nat): seq<nat> {
    if k in h.subitems then h.subitems[k] else []
  }

  /** Every subitem of j is an item whose placement is j. */
  predicate Consistent(items: seq<Item>, h: Hierarchy) {
    forall j :: j in h.subitems ==> forall c :: c in h.subitems[j] ==> c < |items| && Placement(items, c) == Some(j)
  }

  lemma HierConsistent(items: seq<Item>)
    requires Hier(items, |items|).Returned?
    ensures Consistent(items, Hier(items, |items|).value)
  {
    HierSubitems(items, |items|);
  }

  /** A subitem ranks below the item it sits under. */
  lemma SubitemsBelow(items: seq<Item>, h: Hierarchy, k: nat, rank: map<string, nat>)
    requires Ranked(items, rank) && Consistent(items, h) && k < |items|
    ensures forall c :: c in Subitems(h, k) ==> c < |items| && ItemRank(items[c].id, rank) < ItemRank(items[k].id, rank)
  {
    forall c | c in Subitems(h, k)
      ensures c < |items| && ItemRank(items[c].id, rank) < ItemRank(items[k].id, rank)
    {
      assert k in h.subitems && c in h.subitems[k];
      assert c < |items|;
      assert Placement(items, c) == Some(k);
      assert items[c] in items && items[k] in items;
      assert items[c].parents[0] in items[c].parents;
    }
  }

  /**
   * flatten_hierarchy(item, path): the item's own path first, then, child by
   * child, each child's flattening; every row extends the item's path, and
   * each row after the first extends by one step a row that comes before it.
   */
  function Flatten(items: seq<Item>, h: Hierarchy, k: nat, path: Path, rank: map<string, nat>): (rows: seq<Path>)
    requires Ranked(items, rank) && Consistent(items, h) && k < |items|
    ensures rows != [] && rows[0] == path + [(items[k].id, items[k].name)]
    ensures forall r :: r in rows ==> rows[0] <= r
    decreases ItemRank(items[k].id, rank), 1
  {
    var current := path + [(items[k].id, items[k].name)];
    SubitemsBelow(items, h, k, rank);
    var below := FlattenAll(items, h, Subitems(h, k), |Subitems(h, k)|, current, ItemRank(items[k].id, rank), rank);
    [current] + below
  }

  /** The flattenings of the first n children, one after another. */
  function FlattenAll(items: seq<Item>, h: Hierarchy, cs: seq<nat>, n: nat, current: Path, bound: nat, rank: map<string, nat>)
    : (rows: seq<Path>)
    requires Ranked(items, rank) && Consistent(items, h) && n <= |cs|
    requires forall c :: c in cs ==> c < |items| && ItemRank(items[c].id, rank) < bound
    ensures forall r :: r in rows ==> current <= r && |r| > |current|
    decreases bound, 0, n
  {
    if n == 0 then []
    else
      var before := FlattenAll(items, h, cs, n - 1, current, bound, rank);
      assert cs[n - 1] in cs;
      var sub := Flatten(items, h, cs[n - 1], current, rank);
      var rows := before + sub;
      rows
  }

  /** flatten_hierarchy lists a path only after the path of its parent. */
  lemma {:induction false} FlattenPreorder(items: seq<Item>, h: Hierarchy, k: nat, path: Path, rank: map<string, nat>)
    requires Ranked(items, rank) && Consistent(items, h) && k < |items|
    ensures ParentsBefore(Flatten(items, h, k, path, rank), path)
    decreases ItemRank(items[k].id, rank), 1
  {
    var current := path + [(items[k].id, items[k].name)];
    SubitemsBelow(items, h, k, rank);
    var below := FlattenAll(items, h, Subitems(h, k), |Subitems(h, k)|, current, ItemRank(items[k].id, rank), rank);
    FlattenAllPreorder(items, h, Subitems(h, k), |Subitems(h, k)|, current, ItemRank(items[k].id, rank), rank);
    var rows := [current] + below;
    assert ParentOf(current) == path;
    assert ParentListed(rows, 0, path);
    forall i | 0 < i < |rows|
      ensures ParentListed(rows, i, path)
    {
      assert ParentListed(below, i - 1, current);
      assert rows[i] == below[i - 1];
      assert [current] + below[..i - 1] == rows[..i];
    }
  }

  lemma {:induction false} FlattenAllPreorder(items: seq<Item>, h: Hierarchy, cs: seq<nat>, n: nat, current: Path, bound: nat, rank: map<string, nat>)
    requires Ranked(items, rank) && Consistent(items, h) && n <= |cs|
    requires forall c :: c in cs ==> c < |items| && ItemRank(items[c].id, rank) < bound
    ensures ParentsBefore(FlattenAll(items, h, cs, n, current, bound, rank), current)
    decreases bound, 0, n
  {
    if n > 0 {
      var before := FlattenAll(items, h, cs, n - 1, current, bound, rank);
      FlattenAllPreorder(items, h, cs, n - 1, current, bound, rank);
      assert cs[n - 1] in cs;
      var sub := Flatten(items, h, cs[n - 1], current, rank);
      FlattenPreorder(items, h, cs[n - 1], current, rank);
      assert FlattenAll(items, h, cs, n, current, bound, rank) == before + sub;
      ParentsBeforeConcat(before, sub, current);
    }
  }

  /** flatten_hierarchy covers every child: each child's flattening from the item's own path is part of the item's flattening. */
  lemma {:induction false} FlattenHasChildren(items: seq<Item>, h: Hierarchy, k: nat, path: Path, rank: map<string, nat>)
    requires Ranked(items, rank) && Consistent(items, h) && k < |items|
    ensures var current := path + [(items[k].id, items[k].name)];
            forall c, r :: c in Subitems(h, k) && r in Flatten(items, h, c, current, rank) ==> r in Flatten(items, h, k, path, rank)
  {
    var current := path + [(items[k].id, items[k].name)];
    var cs := Subitems(h, k);
    SubitemsBelow(items, h, k, rank);
    assert forall i :: 0 <= i < |cs| ==> cs[i] in cs;
    FlattenAllCovers(items, h, cs, |cs|, current, ItemRank(items[k].id, rank), rank);
    var below := FlattenAll(items, h, cs, |cs|, current, ItemRank(items[k].id, rank), rank);
    var rows := Flatten(items, h, k, path, rank);
    assert rows == [current] + below;
    forall c, r | c in cs && r in Flatten(items, h, c, current, rank)
      ensures r in rows
    {
      var j :| 0 <= j < |cs| && cs[j] == c;
      assert r in below;
    }
  }

  /** flatten_hierarchy lists nothing else: every row after the item's own path comes from some child's flattening. */
  lemma {:induction false} FlattenRowsFromChildren(items: seq<Item>, h: Hierarchy, k: nat, path: Path, rank: map<string, nat>)
    requires Ranked(items, rank) && Consistent(items, h) && k < |items|
    ensures var current := path + [(items[k].id, items[k].name)];
            var rows := Flatten(items, h, k, path, rank);
            forall i :: 0 < i < |rows| ==> exists c :: c in Subitems(h, k) && rows[i] in Flatten(items, h, c, current, rank)
  {
    var current := path + [(items[k].id, items[k].name)];
    var cs := Subitems(h, k);
    SubitemsBelow(items, h, k, rank);
    assert forall i :: 0 <= i < |cs| ==> cs[i] in cs;
    FlattenAllCovers(items, h, cs, |cs|, current, ItemRank(items[k].id, rank), rank);
    var rows := Flatten(items, h, k, path, rank);
    forall i | 0 < i < |rows|
      ensures exists c :: c in cs && rows[i] in Flatten(items, h, c, current, rank)
    {
      assert rows[i] in FlattenAll(items, h, cs, |cs|, current, ItemRank(items[k].id, rank), rank);
      var j :| 0 <= j < |cs| && rows[i] in Flatten(items, h, cs[j], current, rank);
      assert cs[j] in cs;
    }
  }

  /** The flattenings of the first n children are exactly what FlattenAll lists. */
  lemma {:induction false} FlattenAllCovers(items: seq<Item>, h: Hierarchy, cs: seq<nat>, n: nat, current: Path, bound: nat, rank: map<string, nat>)
    requires Ranked(items, rank) && Consistent(items, h) && n <= |cs|
    requires forall c :: c in cs ==> c < |items| && ItemRank(items[c].id, rank) < bound
    requires forall i :: 0 <= i < |cs| ==> cs[i] < |items|
    ensures forall j, r :: 0 <= j < n && r in Flatten(items, h, cs[j], current, rank) ==> r in FlattenAll(items, h, cs, n, current, bound, rank)
    ensures forall r :: r in FlattenAll(items, h, cs, n, current, bound, rank) ==> exists j :: 0 <= j < n && r in Flatten(items, h, cs[j], current, rank)
  {
    if n > 0 {
      FlattenAllCovers(items, h, cs, n - 1, current, bound, rank);
      assert cs[n - 1] in cs;
      var before := FlattenAll(items, h, cs, n - 1, current, bound, rank);
      var sub := Flatten(items, h, cs[n - 1], current, rank);
      var all := FlattenAll(items, h, cs, n, current, bound, rank);
      assert all == before + sub;
      forall j, r | 0 <= j < n && r in Flatten(items, h, cs[j], current, rank)
        ensures r in all
      {
        if j < n - 1 {
          assert r in before;
        }
      }
      forall r | r in all
        ensures exists j :: 0 <= j < n && r in Flatten(items, h, cs[j], current, rank)
      {
        if r !in sub {
          assert r in before;
        }
      }
    }
  }

  /** Every item sits in exactly one list of a built hierarchy: the roots when it is placed nowhere, otherwise its parent's subitems. */
  lemma PlacedOnce(items: seq<Item>, k: nat)
    requires k < |items| && Hier(items, |items|).Returned?
    ensures var h := Hier(items, |items|).value;
            && (k in h.roots <==> Placement(items, k).None?)
            && (Placement(items, k).Some? ==> Placement(items, k).value in h.subitems)
            && (forall j :: j in h.subitems ==> (k in h.subitems[j] <==> Placement(items, k) == Some(j)))
  {
    HierShape(items, |items|);
    HierSubitems(items, |items|);
    HierReturned(items, |items|);
  }

  // ================================================================ main: flattened

  /** flattened: the flattenings of the first n roots, one after another. */
  function FlattenForest(items: seq<Item>, h: Hierarchy, roots: seq<nat>, n: nat, rank: map<string, nat>): (rows: seq<Path>)
    requires Ranked(items, rank) && Consistent(items, h) && n <= |roots|
    requires forall c :: c in roots ==> c < |items|
    ensures forall r :: r in rows ==> r != []
  {
    if n == 0 then []
    else
      assert roots[n - 1] in roots;
      FlattenForest(items, h, roots, n - 1, rank) + Flatten(items, h, roots[n - 1], [], rank)
  }

  /** In flattened, every path is a root's own path or comes after its parent's path. */
  lemma {:induction false} ForestPreorder(items: seq<Item>, h: Hierarchy, roots: seq<nat>, n: nat, rank: map<string, nat>)
    requires Ranked(items, rank) && Consistent(items, h) && n <= |roots|
    requires forall c :: c in roots ==> c < |items|
    ensures ParentsBefore(FlattenForest(items, h, roots, n, rank), [])
  {
    if n > 0 {
      ForestPreorder(items, h, roots, n - 1, rank);
      assert roots[n - 1] in roots;
      FlattenPreorder(items, h, roots[n - 1], [], rank);
      ParentsBeforeConcat(FlattenForest(items, h, roots, n - 1, rank), Flatten(items, h, roots[n - 1], [], rank), []);
    }
  }

  /** The roots of a built hierarchy are listed items. */
  lemma RootsListed(items: seq<Item>)
    requires Hier(items, |items|).Returned?
    ensures forall c :: c in Hier(items, |items|).value.roots ==> c < |items|
    ensures Consistent(items, Hier(items, |items|).value)
  {
    HierShape(items, |items|);
    HierConsistent(items);
  }

  /** The loop over the tree's roots. */
  method FlattenedPaths(items: seq<Item>, h: Hierarchy, rank: map<string, nat>) returns (flattened: seq<Path>)
    requires Ranked(items, rank) && Consistent(items, h)
    requires forall c :: c in h.roots ==> c < |items|
    ensures flattened == FlattenForest(items, h, h.roots, |h.roots|, rank)
  {
    flattened := [];
    for n := 0 to |h.roots|
      invariant flattened == FlattenForest(items, h, h.roots, n, rank)
    {
      assert h.roots[n] in h.roots;
      flattened := flattened + Flatten(items, h, h.roots[n], [], rank);
    }
  }

  // ================================================================ main: perm_map and all_emails

  /** The ids of the items, in order. */
  function ItemIds(items: seq<Item>): (ids: seq<string>)
    ensures |ids| == |items| && forall k :: 0 <= k < |items| ==> ids[k] == items[k].id
  {
    seq(|items|, k requires 0 <= k < |items| => items[k].id)
  }

  /**
   * perm_map once the lists fetched for the first items are stored: an id
   * maps to the list fetched for the last of those items carrying it.
   */
  function PermMap(items: seq<Item>, fetched: seq<seq<Permission>>): (m: map<string, seq<Permission>>)
    requires |fetched| <= |items|
    ensures m.Keys == IdIndex(items, |fetched|).Keys
    ensures forall id :: id in m ==> m[id] == fetched[IdIndex(items, |fetched|)[id]]
  {
    if fetched == [] then map[]
    else
      var n := |fetched| - 1;
      PermMap(items, fetched[..n])[items[n].id := fetched[n]]
  }

  /** The lower-cased emails of a permission list, skipping permissions without one. */
  function EmailsOf(ps: seq<Permission>): seq<string> {
    if ps == [] then []
    else
      var rest := EmailsOf(ps[1..]);
      if ps[0].emailAddress != "" then [Lower(ps[0].emailAddress)] + rest else rest
  }

  /** The list holds the lower-cased email of every permission that has one, and nothing else. */
  lemma {:induction false} EmailsOfMembers(ps: seq<Permission>)
    ensures forall e :: e in EmailsOf(ps) ==> e != ""
    ensures forall p :: p in ps && p.emailAddress != "" ==> Lower(p.emailAddress) in EmailsOf(ps)
    ensures forall e :: e in EmailsOf(ps) ==> exists p :: p in ps && p.emailAddress != "" && Lower(p.emailAddress) == e
  {
    if ps != [] {
      EmailsOfMembers(ps[1..]);
      assert forall p :: p in ps <==> p == ps[0] || p in ps[1..];
    }
  }

  /** The emails met over the fetched lists, in the order they are met: all_emails, as the sequence of its additions. */
  function Emails(fetched: seq<seq<Permission>>): seq<string> {
    if fetched == [] then []
    else
      var n := |fetched| - 1;
      Emails(fetched[..n]) + EmailsOf(fetched[n])
  }

  /** An email is met exactly when some fetched list holds it. */
  lemma {:induction false} EmailMet(fetched: seq<seq<Permission>>, e: string)
    ensures e in Emails(fetched) <==> exists k :: 0 <= k < |fetched| && e in EmailsOf(fetched[k])
  {
    if fetched != [] {
      var n := |fetched| - 1;
      var pre := fetched[..n];
      EmailMet(pre, e);
      assert Emails(fetched) == Emails(pre) + EmailsOf(fetched[n]);
      if e in Emails(pre) {
        var k :| 0 <= k < n && e in EmailsOf(pre[k]);
        assert pre[k] == fetched[k];
      }
      if exists k :: 0 <= k < |fetched| && e in EmailsOf(fetched[k]) {
        var k :| 0 <= k < |fetched| && e in EmailsOf(fetched[k]);
        if k < n {
          assert pre[k] == fetched[k];
        }
      }
    }
  }

  lemma EmailsMet(fetched: seq<seq<Permission>>)
    ensures forall e :: e in Emails(fetched) <==> exists k :: 0 <= k < |fetched| && e in EmailsOf(fetched[k])
  {
    forall e
      ensures e in Emails(fetched) <==> exists k :: 0 <= k < |fetched| && e in EmailsOf(fetched[k])
    {
      EmailMet(fetched, e);
    }
  }

  /** sorted_emails: the distinct lower-cased permission emails over every item, ascending. */
  function EmailColumns(fetched: seq<seq<Permission>>): (cols: seq<string>)
    ensures StrictlySorted(cols)
    ensures forall e :: e in cols <==> exists k :: 0 <= k < |fetched| && e in EmailsOf(fetched[k])
  {
    EmailsMet(fetched);
    SortedDistinct(Emails(fetched))
  }

  /** The loop over the items that fills perm_map and all_emails. */
  method CollectPermissions(svc: DriveService, items: seq<Item>) returns (permMap: map<string, seq<Permission>>, emails: seq<string>)
    modifies svc
    ensures svc.state == FetchedFor(old(svc.state), ItemIds(items), |items|).0
    ensures permMap == PermMap(items, FetchedFor(old(svc.state), ItemIds(items), |items|).1)
    ensures emails == Emails(FetchedFor(old(svc.state), ItemIds(items), |items|).1)
  {
    permMap := map[];
    emails := [];
    ghost var fetched: seq<seq<Permission>> := [];
    ghost var ids := ItemIds(items);
    for n := 0 to |items|
      invariant FetchedFor(old(svc.state), ids, n) == (svc.state, fetched)
      invariant permMap == PermMap(items, fetched) && emails == Emails(fetched)
    {
      assert ids[n] == items[n].id;
      var perms := FetchPermissions(svc, items[n].id, ScriptMaxRetries);
      permMap := permMap[items[n].id := perms];
      emails := emails + EmailsOf(perms);
      fetched := fetched + [perms];
      assert fetched[..n] == fetched[..|fetched| - 1];
    }
  }

  // ================================================================ main: headers and rows

  /** The name shown for an email column: 'Unknown' for an email the mapping lacks. */
  function NameOf(mapping: map<string, (string, string)>, e: string): (n: string)
    ensures e !in mapping ==> n == "Unknown"
    ensures e in mapping ==> n == mapping[e].0
  {
    if e in mapping then mapping[e].0 else "Unknown"
  }

  /** The title shown for an email column: 'Unknown' for an email the mapping lacks. */
  function TitleOf(mapping: map<string, (string, string)>, e: string): (t: string)
    ensures e !in mapping ==> t == "Unknown"
    ensures e in mapping ==> t == mapping[e].1
  {
    if e in mapping then mapping[e].1 else "Unknown"
  }

  /**
   * Over the mapping read from a sheet, an address's name and title are the
   * stripped name and title cells of the last kept row with that address as
   * key, and 'Unknown' when no kept row has it.
   */
  lemma NameTitleFromSheet(rows: seq<seq<string>>, e: string)
    ensures var m, o := MappingOf(rows, |rows|), LastWithKey(rows, |rows|, e);
            && (o.None? ==> NameOf(m, e) == "Unknown" && TitleOf(m, e) == "Unknown")
            && (o.Some? ==> NameOf(m, e) == Strip(rows[o.value][0]) && TitleOf(m, e) == Strip(rows[o.value][2]))
  {
    MappingLookup(rows, |rows|, e);
  }

  function NamesHeader(mapping: map<string, (string, string)>, emails: seq<string>): (r: seq<string>)
    ensures |r| == |emails| + 3 && r[..2] == ["Full Path", "Item ID"] && r[|r| - 1] == ""
    ensures forall j :: 0 <= j < |emails| ==> r[j + 2] == NameOf(mapping, emails[j])
  {
    ["Full Path", "Item ID"] + seq(|emails|, j requires 0 <= j < |emails| => NameOf(mapping, emails[j])) + [""]
  }

  function TitlesHeader(mapping: map<string, (string, string)>, emails: seq<string>): (r: seq<string>)
    ensures |r| == |emails| + 3 && r[..2] == ["", ""] && r[|r| - 1] == ""
    ensures forall j :: 0 <= j < |emails| ==> r[j + 2] == TitleOf(mapping, emails[j])
  {
    ["", ""] + seq(|emails|, j requires 0 <= j < |emails| => TitleOf(mapping, emails[j])) + [""]
  }

  function EmailsHeader(emails: seq<string>): (r: seq<string>)
    ensures |r| == |emails| + 3 && r[..2] == ["", ""] && r[2..|r| - 1] == emails && r[|r| - 1] == ""
  {
    ["", ""] + emails + [""]
  }

  /**
   * The cell for email e over the first n permissions: the role of the last
   * one whose lower-cased email is e, 'No Access' when there is none.
   */
  function CellOf(ps: seq<Permission>, e: string, n: nat): (c: string)
    requires n <= |ps|
    ensures (forall i :: 0 <= i < n ==> Lower(ps[i].emailAddress) != e) ==> c == "No Access"
    ensures forall i :: 0 <= i < n && Lower(ps[i].emailAddress) == e && (forall j :: i < j < n ==> Lower(ps[j].emailAddress) != e)
                        ==> c == ps[i].role
  {
    if n == 0 then "No Access"
    else if Lower(ps[n - 1].emailAddress) == e then ps[n - 1].role
    else CellOf(ps, e, n - 1)
  }

  /** perm_map.get(item_id, []): the item's permissions, none for an item the map lacks. */
  function PermsFor(permMap: map<string, seq<Permission>>, id: string): (ps: seq<Permission>)
    ensures id !in permMap ==> ps == []
    ensures id in permMap ==> ps == permMap[id]
  {
    if id in permMap then permMap[id] else []
  }

  /**
   * The cell row_perms holds for column j: an email column written through
   * sorted_emails.index, which names the first column with that email.
   */
  function ColumnCell(ps: seq<Permission>, emails: seq<string>, j: nat): string
    requires j < |emails|
  {
    PartialCell(ps, emails, j, |ps|)
  }

  /** Column j of row_perms after the first i permissions are written. */
  function PartialCell(ps: seq<Permission>, emails: seq<string>, j: nat, i: nat): string
    requires j < |emails| && i <= |ps|
  {
    if IndexOf(emails, emails[j]) == j then CellOf(ps, emails[j], i) else "No Access"
  }

  /** Writing permission i's role into its email's column keeps every column equal to PartialCell. */
  lemma PartialCellStep(ps: seq<Permission>, emails: seq<string>, j: nat, i: nat)
    requires j < |emails| && i < |ps|
    ensures Lower(ps[i].emailAddress) in emails && j == IndexOf(emails, Lower(ps[i].emailAddress)) ==>
              PartialCell(ps, emails, j, i + 1) == ps[i].role
    ensures !(Lower(ps[i].emailAddress) in emails && j == IndexOf(emails, Lower(ps[i].emailAddress))) ==>
              PartialCell(ps, emails, j, i + 1) == PartialCell(ps, emails, j, i)
  {
  }

  /** The data row for one flattened path. */
  function DataRow(path: Path, permMap: map<string, seq<Permission>>, emails: seq<string>): (row: seq<string>)
    requires path != []
    ensures |row| == |emails| + 3
    ensures row[0] == FullPath(path) && row[1] == path[|path| - 1].0
    ensures forall j :: 2 <= j < |emails| + 2 ==> row[j] == ColumnCell(PermsFor(permMap, path[|path| - 1].0), emails, j - 2)
    ensures row[|row| - 1] == HasGeneralAccess(PermsFor(permMap, path[|path| - 1].0))
  {
    var id := path[|path| - 1].0;
    var ps := PermsFor(permMap, id);
    [FullPath(path), id] + seq(|emails|, j requires 0 <= j < |emails| => ColumnCell(ps, emails, j)) + [HasGeneralAccess(ps)]
  }

  /**
   * With sorted, distinct email columns, sorted_emails.index finds each
   * column's own email, so every column holds the role of the last
   * permission for that email, or 'No Access'.
   */
  lemma ColumnCellSorted(ps: seq<Permission>, emails: seq<string>, j: nat)
    requires StrictlySorted(emails) && j < |emails|
    ensures ColumnCell(ps, emails, j) == CellOf(ps, emails[j], |ps|)
  {
  }

  /** The three header rows and every data row have the same width: two leading cells, one per email, one trailing. */
  lemma WidthsAgree(mapping: map<string, (string, string)>, emails: seq<string>, path: Path, permMap: map<string, seq<Permission>>)
    requires path != []
    ensures |NamesHeader(mapping, emails)| == |TitlesHeader(mapping, emails)| == |EmailsHeader(emails)|
            == |DataRow(path, permMap, emails)| == 2 + |emails| + 1
  {
  }

  /** row_perms for one path: every column starts at 'No Access', then each permission writes its role into its email's column. */
  method RowPerms(ps: seq<Permission>, emails: seq<string>) returns (cells: seq<string>)
    ensures |cells| == |emails|
    ensures forall j :: 0 <= j < |emails| ==> cells[j] == ColumnCell(ps, emails, j)
  {
    var a := new string[|emails|](_ => "No Access");
    for i := 0 to |ps|
      invariant forall j :: 0 <= j < |emails| ==> a[j] == PartialCell(ps, emails, j, i)
    {
      var email := Lower(ps[i].emailAddress);
      forall j | 0 <= j < |emails| {
        PartialCellStep(ps, emails, j, i);
      }
      if email in emails {
        var k := IndexOf(emails, email);
        a[k] := ps[i].role;
      }
    }
    cells := a[..];
  }

  /** The loop over flattened that builds the data rows. */
  method MatrixRows(flattened: seq<Path>, permMap: map<string, seq<Permission>>, emails: seq<string>) returns (rows: seq<seq<string>>)
    requires forall i :: 0 <= i < |flattened| ==> flattened[i] != []
    ensures |rows| == |flattened|
    ensures forall i :: 0 <= i < |flattened| ==> rows[i] == DataRow(flattened[i], permMap, emails)
  {
    rows := [];
    for i := 0 to |flattened|
      invariant |rows| == i
      invariant forall l :: 0 <= l < i ==> rows[l] == DataRow(flattened[l], permMap, emails)
    {
      var row := MatrixRow(flattened[i], permMap, emails);
      rows := rows + [row];
    }
  }

  /** One pass of that loop: the row of one path. */
  method MatrixRow(path: Path, permMap: map<string, seq<Permission>>, emails: seq<string>) returns (row: seq<string>)
    requires path != []
    ensures row == DataRow(path, permMap, emails)
  {
    var itemId := path[|path| - 1].0;
    var perms := PermsFor(permMap, itemId);
    var rowPerms := RowPerms(perms, emails);
    assert rowPerms == seq(|emails|, j requires 0 <= j < |emails| => ColumnCell(perms, emails, j));
    var general := HasGeneralAccess(perms);
    row := [FullPath(path), itemId] + rowPerms + [general];
  }

  // ================================================================ main

  /** What main writes: the names, titles and emails header rows, then one data row per flattened path. */
  datatype Sheet = Sheet(names: seq<string>, titles: seq<string>, emails: seq<string>, rows: seq<seq<string>>)

  /** Every row of the sheet has two leading cells, one per email column and one trailing cell. */
  predicate Rectangular(sheet: Sheet) {
    |sheet.emails| >= 3 &&
    |sheet.names| == |sheet.titles| == |sheet.emails| &&
    forall row :: row in sheet.rows ==> |row| == |sheet.emails|
  }

  /** The data rows, one per flattened path, in order. */
  function DataRows(flattened: seq<Path>, permMap: map<string, seq<Permission>>, emails: seq<string>): (rows: seq<seq<string>>)
    requires forall i :: 0 <= i < |flattened| ==> flattened[i] != []
    ensures |rows| == |flattened|
    ensures forall i :: 0 <= i < |flattened| ==> rows[i] == DataRow(flattened[i], permMap, emails)
    ensures forall row :: row in rows ==> |row| == |emails| + 3
  {
    seq(|flattened|, i requires 0 <= i < |flattened| => DataRow(flattened[i], permMap, emails))
  }

  /**
   * Steps 2 to 4 of main once the items are listed and the hierarchy is
   * built: flatten from each root, fetch every item's permissions, and
   * build the three header rows and the data rows.
   */
  function CookSheet(s: DriveState, items: seq<Item>, h: Hierarchy, mapping: map<string, (string, string)>, rank: map<string, nat>): (r: (DriveState, Sheet))
    requires Ranked(items, rank) && Consistent(items, h)
    requires forall c :: c in h.roots ==> c < |items|
    ensures r.0.items == s.items
    ensures Rectangular(r.1)
    ensures StrictlySorted(r.1.emails[2..|r.1.emails| - 1])
  {
    var flattened := FlattenForest(items, h, h.roots, |h.roots|, rank);
    assert forall i :: 0 <= i < |flattened| ==> flattened[i] in flattened;
    var fetched := FetchedFor(s, ItemIds(items), |items|);
    var emails := EmailColumns(fetched.1);
    (fetched.0, Sheet(NamesHeader(mapping, emails), TitlesHeader(mapping, emails), EmailsHeader(emails),
                      DataRows(flattened, PermMap(items, fetched.1), emails)))
  }

  /**
   * main, from the Drive state and the merged name/title mapping: list
   * everything under the root, build the hierarchy and go on as CookSheet
   * does; the KeyError of build_item_hierarchy propagates.
   */
  function CookReport(s: DriveState, mapping: map<string, (string, string)>, root: string, rank: map<string, nat>): (r: (DriveState, Run<Sheet>))
    requires Ranked(s.items, rank)
    ensures r.0.items == s.items
    ensures var items := ListAll(s, root, rank).1; r.1.Raised? <==> !UnderFolders(items, |items|)
    ensures r.1.Returned? ==> Rectangular(r.1.value)
    ensures r.1.Returned? ==> StrictlySorted(r.1.value.emails[2..|r.1.value.emails| - 1])
  {
    var listing := ListAll(s, root, rank);
    var items := listing.1;
    HierReturned(items, |items|);
    match Hier(items, |items|)
    case Raised(e) => (listing.0, Raised(e))
    case Returned(h) =>
      RootsListed(items);
      var c := CookSheet(listing.0, items, h, mapping, rank);
      (c.0, Returned(c.1))
  }

  /**
   * Steps 2 to 4 of main: flatten from each root, fetch every item's
   * permissions, sort the addresses and fill the rows.
   */
  method CookMatrix(svc: DriveService, items: seq<Item>, h: Hierarchy, mapping: map<string, (string, string)>,
                    rank: map<string, nat>) returns (sheet: Sheet)
    requires Ranked(items, rank) && Consistent(items, h)
    requires forall c :: c in h.roots ==> c < |items|
    modifies svc
    ensures (svc.state, sheet) == CookSheet(old(svc.state), items, h, mapping, rank)
  {
    var flattened := FlattenedPaths(items, h, rank);
    assert forall i :: 0 <= i < |flattened| ==> flattened[i] in flattened;
    var permMap, allEmails := CollectPermissions(svc, items);
    var sortedEmails := SortedDistinct(allEmails);
    var rows := MatrixRows(flattened, permMap, sortedEmails);
    ghost var fetched := FetchedFor(old(svc.state), ItemIds(items), |items|).1;
    assert sortedEmails == EmailColumns(fetched);
    assert rows == DataRows(flattened, PermMap(items, fetched), sortedEmails);
    sheet := Sheet(NamesHeader(mapping, sortedEmails), TitlesHeader(mapping, sortedEmails), EmailsHeader(sortedEmails), rows);
  }

  /**
   * main: the three sheet mappings merged, then the listing, the hierarchy,
   * the flattening, the permission fetches and the rows.
   */
  method BuildReport(svc: DriveService, sponsors: map<string, (string, string)>, bio: map<string, (string, string)>,
                     second: map<string, (string, string)>, root: string, rank: map<string, nat>) returns (r: Run<Sheet>)
    requires Ranked(svc.state.items, rank)
    modifies svc
    ensures (svc.state, r) == CookReport(old(svc.state), NameTitles(sponsors, bio, second), root, rank)
  {
    var mapping := sponsors + bio + second;
    var items := ListAllItems(svc, root, rank);
    var tree := BuildItemHierarchy(items);
    if tree.Raised? {
      return Raised(tree.exception);
    }
    RootsListed(items);
    var sheet := CookMatrix(svc, items, tree.value, mapping, rank);
    return Returned(sheet);
  }
}
