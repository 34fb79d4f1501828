/** backend/src/db/rbac/permissions.js: the role-based permission matrix
    and its two queries. The matrix is kept as the object literal lists it:
    action names in declaration order (the order `Object.keys` gives), each
    with its list of roles. */
module Permissions {
  import opened Wrappers

  type Action = string
  type Role = string

  const Public: Role := "public"

  /** `PERMISSIONS`. */
  const Table: seq<(Action, seq<Role>)> := [
    ("patients:create", ["admin", "doctor", "nurse"]),
    ("patients:read", ["admin", "doctor", "nurse", "viewer"]),
    ("patients:update", ["admin", "doctor"]),
    ("patients:delete", ["admin"]),
    ("devices:assign", ["admin", "doctor", "nurse"]),
    ("devices:read", ["admin", "doctor", "nurse", "viewer"]),
    ("vitals:ingest", [Public]),
    ("alerts:read", ["admin", "doctor", "nurse", "viewer"]),
    ("alerts:acknowledge", ["admin", "doctor", "nurse"]),
    ("alerts:resolve", ["admin", "doctor", "nurse"]),
    ("staff:create", ["admin"]),
    ("staff:read", ["admin", "doctor", "nurse", "viewer"]),
    ("staff:update", ["admin"]),
    ("staff:delete", ["admin"]),
    ("profile:read", ["admin", "doctor", "nurse", "viewer"])
  ]

  /** `PERMISSIONS[action]`: the role list of the entry named `action`. */
  function Lookup(table: seq<(Action, seq<Role>)>, action: Action): (r: Option<seq<Role>>)
    ensures r.None? <==> forall i :: 0 <= i < |table| ==> table[i].0 != action
    ensures r.Some? ==> exists i :: FirstEntry(table, action, i) && table[i].1 == r.value
  {
    if table == [] then None
    else if table[0].0 == action then Some(table[0].1)
    else
      var r := Lookup(table[1..], action);
      assert forall i :: 0 <= i < |table[1..]| ==> table[1..][i] == table[i + 1];
      r
  }

  /** Entry `i` is the first one named `action`. */
  predicate FirstEntry(table: seq<(Action, seq<Role>)>, action: Action, i: int)
  {
    0 <= i < |table| && table[i].0 == action && forall j :: 0 <= j < i ==> table[j].0 != action
  }

  /** `Object.keys(PERMISSIONS)`. */
  function Actions(table: seq<(Action, seq<Role>)>): (r: seq<Action>)
    ensures |r| == |table|
    ensures forall i :: 0 <= i < |table| ==> r[i] == table[i].0
  {
    if table == [] then [] else [table[0].0] + Actions(table[1..])
  }

  /** `hasPermission(role, action)`: an unknown action is denied; a list
      holding 'public' allows any role; otherwise the role must be listed. */
  predicate HasPermission(role: Role, action: Action): (allowed: bool)
    ensures allowed <==> exists i :: FirstEntry(Table, action, i) && (Public in Table[i].1 || role in Table[i].1)
  {
    match Lookup(Table, action)
    case None => false
    case Some(roles) => Public in roles || role in roles
  }

  /** `Object.keys(PERMISSIONS).filter(action => hasPermission(role, action))`
      over any list of action names. */
  function FilterPermitted(role: Role, actions: seq<Action>): (r: seq<Action>)
    ensures forall a :: a in r <==> a in actions && HasPermission(role, a)
    ensures SubsequenceOf(r, actions)
  {
    if actions == [] then []
    else
      var rest := FilterPermitted(role, actions[1..]);
      assert forall a :: a in actions <==> a == actions[0] || a in actions[1..];
      if HasPermission(role, actions[0]) then
        assert ([actions[0]] + rest)[1..] == rest;
        [actions[0]] + rest
      else rest
  }

  /** `xs` is `ys` with some elements left out, the rest in the same order. */
  predicate SubsequenceOf<T(==)>(xs: seq<T>, ys: seq<T>)
    decreases |ys|
  {
    if xs == [] then true
    else if ys == [] then false
    else (xs[0] == ys[0] && SubsequenceOf(xs[1..], ys[1..])) || SubsequenceOf(xs, ys[1..])
  }

  /** `getRolePermissions(role)`: exactly the permitted actions, in table order. */
  function GetRolePermissions(role: Role): (r: seq<Action>)
    ensures forall a :: a in r <==> a in Actions(Table) && HasPermission(role, a)
    ensures SubsequenceOf(r, Actions(Table))
  {
    FilterPermitted(role, Actions(Table))
  }

  /** An action missing from the table is denied to every role, admin included. */
  lemma UnknownActionDenied(role: Role, action: Action)
    requires action !in Actions(Table)
    ensures !HasPermission(role, action)
  {
    assert forall i :: 0 <= i < |Table| ==> Table[i].0 == Actions(Table)[i];
  }

  /** Whatever the role string, 'vitals:ingest' is allowed, so it is in every
      role's permission list. */
  lemma PublicActionAllowed(role: Role)
    ensures HasPermission(role, "vitals:ingest")
    ensures "vitals:ingest" in GetRolePermissions(role)
  {
    assert Table[6].0 == "vitals:ingest";
  }

  /** The entry found for an action is one of the table's entries. */
  lemma LookupIsEntry(action: Action) returns (i: nat)
    requires Lookup(Table, action).Some?
    ensures i < |Table| && Table[i] == (action, Lookup(Table, action).value)
  {
    i :| 0 <= i < |Table| && Table[i] == (action, Lookup(Table, action).value);
  }

  /** Admin is allowed every action the table defines. */
  lemma AdminHoldsEveryAction(action: Action)
    requires action in Actions(Table)
    ensures HasPermission("admin", action)
  {
    var k :| 0 <= k < |Actions(Table)| && Actions(Table)[k] == action;
    assert Table[k].0 == action;
    var i := LookupIsEntry(action);
    AdminListed(i);
  }

  /** Every entry lists admin or is public. */
  lemma AdminListed(i: nat)
    requires i < |Table|
    ensures "admin" in Table[i].1 || Public in Table[i].1
  {
    assert forall j :: 0 <= j < |Table| ==> "admin" in Table[j].1 || Public in Table[j].1;
  }

  /** Every viewer permission is a nurse permission, every nurse permission
      a doctor permission, every doctor permission an admin permission. */
  lemma RoleHierarchy(action: Action)
    ensures HasPermission("viewer", action) ==> HasPermission("nurse", action)
    ensures HasPermission("nurse", action) ==> HasPermission("doctor", action)
    ensures HasPermission("doctor", action) ==> HasPermission("admin", action)
  {
    assert forall i :: 0 <= i < |Table| ==>
      && ("viewer" in Table[i].1 ==> "nurse" in Table[i].1)
      && ("nurse" in Table[i].1 ==> "doctor" in Table[i].1)
      && ("doctor" in Table[i].1 ==> "admin" in Table[i].1);
    if Lookup(Table, action).Some? {
      var i := LookupIsEntry(action);
    }
  }

  /** A viewer may read patients but not create them; admin and doctor may create them. */
  lemma PatientPermissionExamples(read: Action, create: Action)
    requires read == "patients:read" && create == "patients:create"
    ensures HasPermission("viewer", read)
    ensures !HasPermission("viewer", create)
    ensures HasPermission("admin", create) && HasPermission("doctor", create)
  {
    LookupAt(Table, 0);
    LookupAt(Table, 1);
  }

  /** A viewer may read alerts. */
  lemma AlertPermissionExample(read: Action)
    requires read == "alerts:read"
    ensures HasPermission("viewer", read) && HasPermission("nurse", read)
  {
    LookupAt(Table, 7);
  }

  /** A viewer may not create staff; admin may. */
  lemma StaffPermissionExample(create: Action)
    requires create == "staff:create"
    ensures !HasPermission("viewer", create) && !HasPermission("doctor", create)
    ensures HasPermission("admin", create)
  {
    LookupAt(Table, 10);
  }

  /** The lookup finds an entry whose name no earlier entry has. */
  lemma {:induction false} LookupAt(table: seq<(Action, seq<Role>)>, k: nat)
    requires k < |table|
    requires forall j :: 0 <= j < k ==> table[j].0 != table[k].0
    ensures Lookup(table, table[k].0) == Some(table[k].1)
  {
    if k > 0 {
      LookupAt(table[1..], k - 1);
    }
  }
}
