/**
 * Google Drive as the scripts see it: an in-memory state of items (with
 * parent links) and their permission lists, and the v3 API calls the scripts
 * make on it. Every call is answered by the next entry of a script of HTTP
 * outcomes (`answers`); once the script is exhausted every call succeeds.
 * A call answered with an HTTP error changes nothing but the script and the
 * call counter.
 */
module Drive {
  import opened Wrappers
  import opened Text

  const FolderMime: string := "application/vnd.google-apps.folder"

  /**
   * A permission as permissions.list returns it. `kind` is the API's `type`
   * (user, group, domain, anyone); "" stands for a field the API left out.
   */
  datatype Permission = Permission(
    id: string,
    kind: string,
    emailAddress: string,
    domain: string,
    role: string,
    allowFileDiscovery: Option<string>,
    expirationTime: Option<string>)

  /**
   * A file or folder. `owners` holds the owners' email addresses ("" for an
   * owner listed without one); an empty list stands for a missing field.
   */
  datatype Item = Item(
    id: string,
    name: string,
    mimeType: string,
    parents: seq<string>,
    trashed: bool,
    owners: seq<string>,
    webViewLink: string)

  predicate IsFolder(it: Item) { it.mimeType == FolderMime }

  /** The outcome of one HTTP request. */
  datatype Outcome = Ok | HttpError(status: int)

  /** What a call returns: a value, or the HTTP status of the error it raised. */
  datatype Reply<T> = Done(value: T) | Failed(status: int)

  /** One page of a paginated listing; `next` is the nextPageToken, as an offset. */
  datatype Page<T> = Page(entries: seq<T>, next: Option<nat>)

  datatype DriveState = DriveState(
    items: seq<Item>,                     // every item, in the order listings return them
    perms: map<string, seq<Permission>>,  // item id -> its permissions, in listing order
    restricted: map<string, bool>,        // item id -> copyRequiresWriterPermission
    answers: seq<Outcome>,                // how the server answers the next calls
    calls: nat,                           // requests made so far
    issued: nat)                          // permissions created so far, for fresh ids

  /** Only the script of answers and the call counter differ. */
  predicate SameContents(s: DriveState, t: DriveState) {
    s.items == t.items && s.perms == t.perms && s.restricted == t.restricted && s.issued == t.issued
  }

  /** The first item with the given id. */
  function FindItem(items: seq<Item>, id: string): (r: Option<Item>)
    ensures r.Some? ==> r.value in items && r.value.id == id
    ensures r.None? ==> forall it :: it in items ==> it.id != id
  {
    if items == [] then None
    else if items[0].id == id then Some(items[0])
    else FindItem(items[1..], id)
  }

  function PermsOf(s: DriveState, id: string): seq<Permission> {
    if id in s.perms then s.perms[id] else []
  }

  function RestrictedOf(s: DriveState, id: string): bool {
    id in s.restricted && s.restricted[id]
  }

  /** The children of a folder in listing order: items naming it as a parent. */
  function ChildrenOf(items: seq<Item>, folder: string, skipTrashed: bool): (r: seq<Item>)
    ensures |r| <= |items|
    ensures forall c :: c in r <==> c in items && folder in c.parents && !(skipTrashed && c.trashed)
  {
    if items == [] then []
    else
      var rest := ChildrenOf(items[1..], folder, skipTrashed);
      assert forall c :: c in items <==> c == items[0] || c in items[1..];
      if folder in items[0].parents && !(skipTrashed && items[0].trashed) then [items[0]] + rest else rest
  }

  /**
   * Every item and every parent it names has a rank, and an item ranks below
   * each of its parents: the folder graph has no cycle.
   */
  predicate Ranked(items: seq<Item>, rank: map<string, nat>) {
    forall it :: it in items ==>
      it.id in rank && forall p :: p in it.parents ==> p in rank && rank[it.id] < rank[p]
  }

  /** An item's rank, 0 for an id without one. */
  function ItemRank(id: string, rank: map<string, nat>): nat {
    if id in rank then rank[id] else 0
  }

  /** A child of a folder ranks below it: the measure that ends every recursive walk down the tree. */
  lemma ChildBelow(items: seq<Item>, rank: map<string, nat>, folder: string, skipTrashed: bool, entries: seq<Item>, k: nat)
    requires Ranked(items, rank) && k < |entries|
    requires forall e :: e in entries ==> e in ChildrenOf(items, folder, skipTrashed)
    ensures entries[k] in items && entries[k].id in rank && ItemRank(entries[k].id, rank) < ItemRank(folder, rank)
  {
    assert entries[k] in entries;
  }

  /** The page of `all` that starts at `offset`, at most `size` long. */
  function PageOf<T>(all: seq<T>, offset: nat, size: nat): (p: Page<T>)
    requires size > 0
    ensures offset <= |all| ==> p.entries == all[offset..if offset + size < |all| then offset + size else |all|]
    ensures p.next.Some? ==> offset < p.next.value < |all|
    ensures forall e :: e in p.entries ==> e in all
  {
    if offset >= |all| then Page([], None)
    else if offset + size < |all| then Page(all[offset..offset + size], Some(offset + size))
    else Page(all[offset..], None)
  }

  /** Counts the call and takes the next answer from the script. */
  function Respond(s: DriveState): (r: (Outcome, DriveState))
    ensures SameContents(r.1, s) && r.1.calls == s.calls + 1
  {
    if s.answers == [] then (Ok, s.(calls := s.calls + 1))
    else (s.answers[0], s.(answers := s.answers[1..], calls := s.calls + 1))
  }

  /** files.get */
  function GetItem(s: DriveState, id: string): (r: (DriveState, Reply<Item>))
    ensures SameContents(r.0, s) && r.0.calls == s.calls + 1
    ensures r.1.Done? ==> FindItem(s.items, id) == Some(r.1.value)
  {
    var (o, t) := Respond(s);
    if o.HttpError? then (t, Failed(o.status))
    else match FindItem(s.items, id)
      case None => (t, Failed(404))
      case Some(it) => (t, Done(it))
  }

  /** permissions.list, every permission in one response. */
  function ListPermissions(s: DriveState, id: string): (r: (DriveState, Reply<seq<Permission>>))
    ensures SameContents(r.0, s) && r.0.calls == s.calls + 1
    ensures r.1.Done? ==> r.1.value == PermsOf(s, id)
  {
    var (o, t) := Respond(s);
    if o.HttpError? then (t, Failed(o.status))
    else if FindItem(s.items, id).None? then (t, Failed(404))
    else (t, Done(PermsOf(s, id)))
  }

  /** permissions.list, one page of at most `size` permissions. */
  function ListPermissionsPage(s: DriveState, id: string, offset: nat, size: nat): (r: (DriveState, Reply<Page<Permission>>))
    requires size > 0
    ensures SameContents(r.0, s) && r.0.calls == s.calls + 1
    ensures r.1.Done? ==> r.1.value == PageOf(PermsOf(s, id), offset, size)
  {
    var (o, t) := Respond(s);
    if o.HttpError? then (t, Failed(o.status))
    else if FindItem(s.items, id).None? then (t, Failed(404))
    else (t, Done(PageOf(PermsOf(s, id), offset, size)))
  }

  /** files.list with the query "'folder' in parents" (and "trashed=false" when asked). */
  function ListChildren(s: DriveState, folder: string, skipTrashed: bool, offset: nat, size: nat): (r: (DriveState, Reply<Page<Item>>))
    requires size > 0
    ensures SameContents(r.0, s) && r.0.calls == s.calls + 1
    ensures r.1.Done? ==> r.1.value == PageOf(ChildrenOf(s.items, folder, skipTrashed), offset, size)
  {
    var (o, t) := Respond(s);
    if o.HttpError? then (t, Failed(o.status))
    else (t, Done(PageOf(ChildrenOf(s.items, folder, skipTrashed), offset, size)))
  }

  /** The body the create call sends: the address goes to emailAddress for users and groups, to domain otherwise. */
  function NewPermission(id: string, kind: string, role: string, address: string): Permission {
    if kind in ["user", "group"] then Permission(id, kind, address, "", role, None, None)
    else Permission(id, kind, "", address, role, None, None)
  }

  /** permissions.create: appends a permission with a fresh id. */
  function CreatePermission(s: DriveState, id: string, kind: string, role: string, address: string): (r: (DriveState, Outcome))
    ensures r.0.calls == s.calls + 1 && r.0.items == s.items && r.0.restricted == s.restricted
    ensures r.1.HttpError? ==> SameContents(r.0, s)
    ensures r.1.Ok? ==> r.0.perms == s.perms[id := PermsOf(s, id) + [NewPermission("perm-" + DecimalString(s.issued), kind, role, address)]]
  {
    var (o, t) := Respond(s);
    if o.HttpError? then (t, o)
    else if FindItem(s.items, id).None? then (t, HttpError(404))
    else
      var p := NewPermission("perm-" + DecimalString(s.issued), kind, role, address);
      (t.(perms := s.perms[id := PermsOf(s, id) + [p]], issued := s.issued + 1), Ok)
  }

  function WithoutPermission(ps: seq<Permission>, pid: string): (r: seq<Permission>)
    ensures forall p :: p in r <==> p in ps && p.id != pid
  {
    if ps == [] then []
    else
      assert forall p :: p in ps <==> p == ps[0] || p in ps[1..];
      if ps[0].id == pid then WithoutPermission(ps[1..], pid) else [ps[0]] + WithoutPermission(ps[1..], pid)
  }

  function WithRole(ps: seq<Permission>, pid: string, role: string): (r: seq<Permission>)
    ensures |r| == |ps|
    ensures forall i :: 0 <= i < |ps| ==> r[i] == if ps[i].id == pid then ps[i].(role := role) else ps[i]
  {
    if ps == [] then []
    else [if ps[0].id == pid then ps[0].(role := role) else ps[0]] + WithRole(ps[1..], pid, role)
  }

  predicate HasPermissionId(s: DriveState, id: string, pid: string) {
    exists p :: p in PermsOf(s, id) && p.id == pid
  }

  /** permissions.delete */
  function DeletePermission(s: DriveState, id: string, pid: string): (r: (DriveState, Outcome))
    ensures r.0.calls == s.calls + 1 && r.0.items == s.items && r.0.restricted == s.restricted && r.0.issued == s.issued
    ensures r.1.HttpError? ==> SameContents(r.0, s)
    ensures r.1.Ok? ==> HasPermissionId(s, id, pid) && r.0.perms == s.perms[id := WithoutPermission(PermsOf(s, id), pid)]
  {
    var (o, t) := Respond(s);
    if o.HttpError? then (t, o)
    else if !HasPermissionId(s, id, pid) then (t, HttpError(404))
    else (t.(perms := s.perms[id := WithoutPermission(PermsOf(s, id), pid)]), Ok)
  }

  /** permissions.update of the role. */
  function UpdatePermission(s: DriveState, id: string, pid: string, role: string): (r: (DriveState, Outcome))
    ensures r.0.calls == s.calls + 1 && r.0.items == s.items && r.0.restricted == s.restricted && r.0.issued == s.issued
    ensures r.1.HttpError? ==> SameContents(r.0, s)
    ensures r.1.Ok? ==> HasPermissionId(s, id, pid) && r.0.perms == s.perms[id := WithRole(PermsOf(s, id), pid, role)]
  {
    var (o, t) := Respond(s);
    if o.HttpError? then (t, o)
    else if !HasPermissionId(s, id, pid) then (t, HttpError(404))
    else (t.(perms := s.perms[id := WithRole(PermsOf(s, id), pid, role)]), Ok)
  }

  /** files.update of copyRequiresWriterPermission. */
  function SetRestricted(s: DriveState, id: string, value: bool): (r: (DriveState, Outcome))
    ensures r.0.calls == s.calls + 1 && r.0.items == s.items && r.0.perms == s.perms && r.0.issued == s.issued
    ensures r.1.HttpError? ==> SameContents(r.0, s)
    ensures r.1.Ok? ==> r.0.restricted == s.restricted[id := value]
  {
    var (o, t) := Respond(s);
    if o.HttpError? then (t, o)
    else if FindItem(s.items, id).None? then (t, HttpError(404))
    else (t.(restricted := s.restricted[id := value]), Ok)
  }

  /** The text of a raised HttpError, standing in for str(e). */
  function ErrorText(status: int): string {
    "HttpError " + (if status >= 0 then DecimalString(status) else "-" + DecimalString(-status))
  }

  /** The service object the scripts hold; each method is one API request. */
  class DriveService {
    var state: DriveState

    constructor (initial: DriveState)
      ensures state == initial
    {
      state := initial;
    }

    method Get(id: string) returns (r: Reply<Item>)
      modifies this
      ensures (state, r) == GetItem(old(state), id)
    {
      var t;
      t, r := GetItem(state, id).0, GetItem(state, id).1;
      state := t;
    }

    method ListPerms(id: string) returns (r: Reply<seq<Permission>>)
      modifies this
      ensures (state, r) == ListPermissions(old(state), id)
    {
      var t;
      t, r := ListPermissions(state, id).0, ListPermissions(state, id).1;
      state := t;
    }

    method ListPermsPage(id: string, offset: nat, size: nat) returns (r: Reply<Page<Permission>>)
      requires size > 0
      modifies this
      ensures (state, r) == ListPermissionsPage(old(state), id, offset, size)
    {
      var t;
      t, r := ListPermissionsPage(state, id, offset, size).0, ListPermissionsPage(state, id, offset, size).1;
      state := t;
    }

    method List(folder: string, skipTrashed: bool, offset: nat, size: nat) returns (r: Reply<Page<Item>>)
      requires size > 0
      modifies this
      ensures (state, r) == ListChildren(old(state), folder, skipTrashed, offset, size)
    {
      var t;
      t, r := ListChildren(state, folder, skipTrashed, offset, size).0, ListChildren(state, folder, skipTrashed, offset, size).1;
      state := t;
    }

    method Create(id: string, kind: string, role: string, address: string) returns (o: Outcome)
      modifies this
      ensures (state, o) == CreatePermission(old(state), id, kind, role, address)
    {
      var t;
      t, o := CreatePermission(state, id, kind, role, address).0, CreatePermission(state, id, kind, role, address).1;
      state := t;
    }

    method Delete(id: string, pid: string) returns (o: Outcome)
      modifies this
      ensures (state, o) == DeletePermission(old(state), id, pid)
    {
      var t;
      t, o := DeletePermission(state, id, pid).0, DeletePermission(state, id, pid).1;
      state := t;
    }

    method Update(id: string, pid: string, role: string) returns (o: Outcome)
      modifies this
      ensures (state, o) == UpdatePermission(old(state), id, pid, role)
    {
      var t;
      t, o := UpdatePermission(state, id, pid, role).0, UpdatePermission(state, id, pid, role).1;
      state := t;
    }

    method Restrict(id: string, value: bool) returns (o: Outcome)
      modifies this
      ensures (state, o) == SetRestricted(old(state), id, value)
    {
      var t;
      t, o := SetRestricted(state, id, value).0, SetRestricted(state, id, value).1;
      state := t;
    }
  }
}
