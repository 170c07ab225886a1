/**
  Two computations of one relation: the check `hasAccess`, and the access level shown in a user's list
  of machines. The database is a value; its queries are selections of the permission table.
 */
module Rbac {
  import opened Common

  type UserId = nat
  type GroupId = nat
  type MachineId = nat
  type MachineGroupId = nat
  type PermissionId = nat

  datatype Role = ADMIN | USER
  datatype Level = OPERATOR | OWNER

  datatype Permission = Permission(
    id: PermissionId,
    user: Option<UserId>,
    group: Option<GroupId>,
    machine: Option<MachineId>,
    machineGroup: Option<MachineGroupId>,
    level: Level)

  datatype User = User(role: Role, groups: seq<GroupId>)

  datatype Database = Database(
    users: map<UserId, User>,
    machines: map<MachineId, Option<MachineGroupId>>,
    permissions: seq<Permission>)

  function Rank(level: Level): nat {
    match level
    case OPERATOR => 1
    case OWNER => 2
  }

  predicate IsLevelSufficient(actual: Level, required: Level) {
    Rank(actual) >= Rank(required)
  }

  function Select(ps: seq<Permission>, f: Permission -> bool): seq<Permission> {
    if ps == [] then [] else (if f(ps[0]) then [ps[0]] else []) + Select(ps[1..], f)
  }

  lemma {:induction false} InSelect(ps: seq<Permission>, f: Permission -> bool, p: Permission)
    ensures p in Select(ps, f) <==> p in ps && f(p)
  {
    if ps != [] {
      InSelect(ps[1..], f, p);
      assert p in ps <==> p == ps[0] || p in ps[1..];
    }
  }

  // ----- The relation behind both -----

  function GroupsOf(db: Database, u: UserId): seq<GroupId> {
    if u in db.users then db.users[u].groups else []
  }

  /** The permission names the user or a group the user belongs to. */
  predicate HeldBy(db: Database, u: UserId, p: Permission) {
    p.user == Some(u) || (p.group.Some? && p.group.value in GroupsOf(db, u))
  }

  /** The machine's group; a machine without group and a missing machine both give null. */
  function GroupOf(db: Database, m: MachineId): Option<MachineGroupId> {
    if m in db.machines then db.machines[m] else None
  }

  predicate Grouped(db: Database, m: MachineId) {
    GroupOf(db, m).Some?
  }

  /** The permission is on the machine itself or on the group that contains it. */
  predicate Covers(db: Database, p: Permission, m: MachineId) {
    p.machine == Some(m) || (Grouped(db, m) && p.machineGroup == GroupOf(db, m))
  }

  /** The filter of the check, whose second clause compares with null for a machine without group. */
  predicate Queried(db: Database, p: Permission, m: MachineId) {
    p.machine == Some(m) || p.machineGroup == GroupOf(db, m)
  }

  // The filters as values.

  function Querying(db: Database, m: MachineId): Permission -> bool {
    (p: Permission) => Queried(db, p, m)
  }

  function Covering(db: Database, m: MachineId): Permission -> bool {
    (p: Permission) => Covers(db, p, m)
  }

  function OfUser(db: Database, u: UserId, m: MachineId): Permission -> bool {
    (p: Permission) => p.user == Some(u) && Queried(db, p, m)
  }

  function OfGroup(db: Database, g: GroupId, m: MachineId): Permission -> bool {
    (p: Permission) => p.group == Some(g) && Queried(db, p, m)
  }

  function HeldCovering(db: Database, u: UserId, m: MachineId): Permission -> bool {
    (p: Permission) => HeldBy(db, u, p) && Covers(db, p, m)
  }

  function OnMachine(m: MachineId): Permission -> bool {
    (p: Permission) => p.machine == Some(m)
  }

  function OnGroupOf(db: Database, m: MachineId): Permission -> bool {
    (p: Permission) => p.machineGroup == GroupOf(db, m)
  }

  /** A permission on some other machine, which the check takes for one on a machine without group. */
  function ElsewhereThan(m: MachineId): Permission -> bool {
    (p: Permission) => p.machineGroup == None && p.machine != Some(m)
  }

  /** Some permission the user holds satisfies `f` and is at least the level. */
  ghost predicate Reaches(db: Database, u: UserId, f: Permission -> bool, required: Level) {
    exists p :: p in db.permissions && HeldBy(db, u, p) && f(p) && IsLevelSufficient(p.level, required)
  }

  /** What the check answers. */
  ghost predicate Allowed(db: Database, u: UserId, m: MachineId, required: Level) {
    u in db.users && (db.users[u].role == ADMIN || Reaches(db, u, Querying(db, m), required))
  }

  // ----- hasAccess -----

  method HasAccess(db: Database, u: UserId, m: MachineId, required: Level) returns (granted: bool)
    ensures granted <==> Allowed(db, u, m, required)
  {
    if u !in db.users { return false; }
    var user := db.users[u];
    if user.role == ADMIN { return true; }

    var direct := Select(db.permissions, OfUser(db, u, m));
    for i := 0 to |direct|
      invariant forall j :: 0 <= j < i ==> !IsLevelSufficient(direct[j].level, required)
    {
      if IsLevelSufficient(direct[i].level, required) {
        SelectedReaches(db, u, m, required, OfUser(db, u, m), direct[i]);
        return true;
      }
    }
    for g := 0 to |user.groups|
      invariant forall h :: 0 <= h < g ==>
                  NoneSuffices(Select(db.permissions, OfGroup(db, user.groups[h], m)), required)
    {
      var perms := Select(db.permissions, OfGroup(db, user.groups[g], m));
      for i := 0 to |perms|
        invariant forall j :: 0 <= j < i ==> !IsLevelSufficient(perms[j].level, required)
      {
        if IsLevelSufficient(perms[i].level, required) {
          SelectedReaches(db, u, m, required, OfGroup(db, user.groups[g], m), perms[i]);
          return true;
        }
      }
    }
    NothingReaches(db, u, m, required);
    return false;
  }

  predicate NoneSuffices(ps: seq<Permission>, required: Level) {
    forall i :: 0 <= i < |ps| ==> !IsLevelSufficient(ps[i].level, required)
  }

  lemma SelectedReaches(db: Database, u: UserId, m: MachineId, required: Level,
                        f: Permission -> bool, p: Permission)
    requires p in Select(db.permissions, f) && IsLevelSufficient(p.level, required)
    requires f(p) ==> HeldBy(db, u, p) && Queried(db, p, m)
    ensures Reaches(db, u, Querying(db, m), required)
  {
    InSelect(db.permissions, f, p);
    assert (Querying(db, m))(p);
  }

  lemma NothingReaches(db: Database, u: UserId, m: MachineId, required: Level)
    requires u in db.users
    requires NoneSuffices(Select(db.permissions, OfUser(db, u, m)), required)
    requires forall h :: 0 <= h < |db.users[u].groups| ==>
               NoneSuffices(Select(db.permissions, OfGroup(db, db.users[u].groups[h], m)), required)
    ensures !Reaches(db, u, Querying(db, m), required)
  {
    var direct := OfUser(db, u, m);
    forall p | p in db.permissions && HeldBy(db, u, p) && Queried(db, p, m)
      ensures !IsLevelSufficient(p.level, required)
    {
      if p.user == Some(u) {
        InSelect(db.permissions, direct, p);
        assert p in Select(db.permissions, direct);
      } else {
        var h :| 0 <= h < |db.users[u].groups| && db.users[u].groups[h] == p.group.value;
        InSelect(db.permissions, OfGroup(db, db.users[u].groups[h], m), p);
      }
    }
  }

  // ----- The list of machines -----

  /** The access level displayed beside a machine. */
  datatype AccessLabel = NoLevel | Granted(level: Level) | Administrator

  function LabelRank(shown: AccessLabel): nat {
    match shown
    case NoLevel => 0
    case Granted(level) => Rank(level)
    case Administrator => 3
  }

  datatype ListItem = ListItem(machine: MachineId, shown: AccessLabel)

  /** The `where` clause of the list query. */
  ghost predicate Listed(db: Database, u: UserId, m: MachineId) {
    m in db.machines && exists p :: p in db.permissions && HeldBy(db, u, p) && Covers(db, p, m)
  }

  /** `shown` is the highest level of a permission the user holds on the machine or its group. */
  ghost predicate IsBest(db: Database, u: UserId, m: MachineId, shown: AccessLabel) {
    && shown != Administrator
    && forall required :: LabelRank(shown) >= Rank(required) <==> Reaches(db, u, Covering(db, m), required)
  }

  /** The label of a machine that the query returned. */
  method BestLevel(db: Database, u: UserId, m: MachineId) returns (shown: AccessLabel)
    ensures IsBest(db, u, m, shown)
  {
    var best: nat := 0;
    var onMachine := Select(db.permissions, OnMachine(m));
    var onGroup := if Grouped(db, m) then Select(db.permissions, OnGroupOf(db, m)) else [];
    var all := onMachine + onGroup;
    for i := 0 to |all|
      invariant best <= 2
      invariant best > 0 ==> exists j :: 0 <= j < i && HeldBy(db, u, all[j]) && Rank(all[j].level) == best
      invariant forall j :: 0 <= j < i && HeldBy(db, u, all[j]) ==> Rank(all[j].level) <= best
    {
      if HeldBy(db, u, all[i]) {
        best := if best >= Rank(all[i].level) then best else Rank(all[i].level);
      }
    }
    forall p
      ensures p in all <==> p in db.permissions && Covers(db, p, m)
    {
      InSelect(db.permissions, OnMachine(m), p);
      InSelect(db.permissions, OnGroupOf(db, m), p);
      assert p in all <==> p in onMachine || p in onGroup;
    }
    shown := if best == 0 then NoLevel else if best == 1 then Granted(OPERATOR) else Granted(OWNER);
    BestIsBest(db, u, m, all, best, shown);
  }

  lemma BestIsBest(db: Database, u: UserId, m: MachineId, all: seq<Permission>, best: nat, shown: AccessLabel)
    requires LabelRank(shown) == best && shown != Administrator
    requires forall p :: p in all <==> p in db.permissions && Covers(db, p, m)
    requires best > 0 ==> exists j :: 0 <= j < |all| && HeldBy(db, u, all[j]) && Rank(all[j].level) == best
    requires forall j :: 0 <= j < |all| && HeldBy(db, u, all[j]) ==> Rank(all[j].level) <= best
    ensures IsBest(db, u, m, shown)
  {
    var covers := Covering(db, m);
    forall required
      ensures LabelRank(shown) >= Rank(required) <==> Reaches(db, u, covers, required)
    {
      if best >= Rank(required) {
        var j :| 0 <= j < |all| && HeldBy(db, u, all[j]) && Rank(all[j].level) == best;
        assert all[j] in all;
        assert covers(all[j]) && IsLevelSufficient(all[j].level, required);
      }
      if Reaches(db, u, covers, required) {
        var p :| p in db.permissions && HeldBy(db, u, p) && covers(p) && IsLevelSufficient(p.level, required);
        assert p in all;
      }
    }
  }

  ghost function ListedOf(db: Database, u: UserId, order: seq<MachineId>): seq<MachineId> {
    if order == [] then []
    else
      var m := order[|order| - 1];
      ListedOf(db, u, order[..|order| - 1]) + if Listed(db, u, m) then [m] else []
  }

  function Machines(items: seq<ListItem>): seq<MachineId> {
    seq(|items|, i requires 0 <= i < |items| => items[i].machine)
  }

  /** The listing is what the query selects from the machines in table order, each with its label. */
  ghost predicate IsListing(db: Database, u: UserId, order: seq<MachineId>, items: seq<ListItem>) {
    && Machines(items) == ListedOf(db, u, order)
    && forall i :: 0 <= i < |items| ==> IsBest(db, u, items[i].machine, items[i].shown)
  }

  lemma {:induction false} InListedOf(db: Database, u: UserId, order: seq<MachineId>, m: MachineId)
    ensures m in ListedOf(db, u, order) <==> m in order && Listed(db, u, m)
  {
    if order != [] {
      InListedOf(db, u, order[..|order| - 1], m);
      assert m in order <==> m in order[..|order| - 1] || m == order[|order| - 1];
    }
  }

  ghost predicate IsAdminListing(order: seq<MachineId>, items: seq<ListItem>) {
    |items| == |order| && forall i :: 0 <= i < |items| ==> items[i] == ListItem(order[i], Administrator)
  }

  /** `order` is the order in which the database returns its machines. */
  method FindAllAccessible(db: Database, u: UserId, role: Role, order: seq<MachineId>) returns (items: seq<ListItem>)
    requires forall m :: m in order <==> m in db.machines
    ensures role == ADMIN ==> IsAdminListing(order, items)
    ensures role != ADMIN ==> IsListing(db, u, order, items)
  {
    items := [];
    if role == ADMIN {
      for i := 0 to |order|
        invariant IsAdminListing(order[..i], items)
      {
        items := items + [ListItem(order[i], Administrator)];
      }
      assert order[..|order|] == order;
      return;
    }
    for i := 0 to |order|
      invariant IsListing(db, u, order[..i], items)
    {
      var m := order[i];
      var shown := BestLevel(db, u, m);
      var found := Select(db.permissions, HeldCovering(db, u, m)) != [];
      FoundIsListed(db, u, m);
      assert order[..i + 1] == order[..i] + [m];
      ListingExtends(db, u, order[..i], items, m, shown);
      if found {
        items := items + [ListItem(m, shown)];
      }
    }
    assert order[..|order|] == order;
  }

  lemma FoundIsListed(db: Database, u: UserId, m: MachineId)
    requires m in db.machines
    ensures Select(db.permissions, HeldCovering(db, u, m)) != [] <==> Listed(db, u, m)
  {
    var f := HeldCovering(db, u, m);
    var s := Select(db.permissions, f);
    if s != [] {
      assert s[0] in s;
      InSelect(db.permissions, f, s[0]);
    }
    if Listed(db, u, m) {
      var p :| p in db.permissions && HeldBy(db, u, p) && Covers(db, p, m);
      InSelect(db.permissions, f, p);
    }
  }

  lemma ListingExtends(db: Database, u: UserId, order: seq<MachineId>, items: seq<ListItem>,
                       m: MachineId, shown: AccessLabel)
    requires IsListing(db, u, order, items) && IsBest(db, u, m, shown)
    ensures Listed(db, u, m) ==> IsListing(db, u, order + [m], items + [ListItem(m, shown)])
    ensures !Listed(db, u, m) ==> IsListing(db, u, order + [m], items)
  {
    assert (order + [m])[..|order|] == order;
    assert Machines(items + [ListItem(m, shown)]) == Machines(items) + [m];
  }

  // ----- Both in plain terms -----

  /** The level, as a number, is the least that the requirement accepts: an owner may do all an operator may. */
  lemma LevelsOrdered(actual: Level, required: Level)
    ensures IsLevelSufficient(actual, required) <==> actual == OWNER || required == OPERATOR
  {
  }

  /** The permission names the user, or one of the groups in the user's record. */
  ghost predicate Names(p: Permission, u: UserId, groups: seq<GroupId>) {
    p.user == Some(u) || exists g :: g in groups && p.group == Some(g)
  }

  /**
    The check, spelled out: administrators pass; anyone else needs a permission that names them or a group
    of theirs, on the machine or with the machine's group in its column (both null included), at the level.
   */
  lemma AccessMeans(db: Database, u: UserId, m: MachineId, required: Level)
    ensures Allowed(db, u, m, required)
       <==> && u in db.users
            && (|| db.users[u].role == ADMIN
                || exists p :: && p in db.permissions && Names(p, u, db.users[u].groups)
                               && (p.machine == Some(m)
                                   || p.machineGroup == if m in db.machines then db.machines[m] else None)
                               && (p.level == OWNER || required == OPERATOR))
  {
    if u in db.users {
      forall p
        ensures HeldBy(db, u, p) <==> Names(p, u, db.users[u].groups)
        ensures Querying(db, m)(p)
           <==> (p.machine == Some(m) || p.machineGroup == if m in db.machines then db.machines[m] else None)
      {
      }
    }
  }

  /** The query of the list, spelled out: a permission on the machine, or on the group that it has. */
  lemma ListedMeans(db: Database, u: UserId, m: MachineId)
    requires u in db.users
    ensures Listed(db, u, m)
       <==> && m in db.machines
            && exists p :: && p in db.permissions && Names(p, u, db.users[u].groups)
                           && (p.machine == Some(m) || (db.machines[m].Some? && p.machineGroup == db.machines[m]))
  {
    forall p
      ensures HeldBy(db, u, p) <==> Names(p, u, db.users[u].groups)
    {
    }
  }

  // ----- Check and list agree -----

  /** What `FindAllAccessible` gives a user with this role. */
  ghost predicate IsListFor(db: Database, u: UserId, role: Role, order: seq<MachineId>, items: seq<ListItem>) {
    if role == ADMIN then IsAdminListing(order, items) else IsListing(db, u, order, items)
  }

  /** The list has an entry for the machine with at least this level. */
  predicate Shows(items: seq<ListItem>, m: MachineId, required: Level) {
    exists i :: 0 <= i < |items| && items[i].machine == m && LabelRank(items[i].shown) >= Rank(required)
  }

  /** The entry of a machine, or its absence, says exactly which levels the user's permissions reach. */
  lemma ListingShows(db: Database, u: UserId, order: seq<MachineId>, items: seq<ListItem>,
                     m: MachineId, required: Level)
    requires forall k :: k in order <==> k in db.machines
    requires IsListing(db, u, order, items)
    ensures Shows(items, m, required) <==> m in db.machines && Reaches(db, u, Covering(db, m), required)
  {
    var covers := Covering(db, m);
    if m in db.machines && Reaches(db, u, covers, required) {
      var p :| p in db.permissions && HeldBy(db, u, p) && covers(p) && IsLevelSufficient(p.level, required);
      assert Listed(db, u, m);
      InListedOf(db, u, order, m);
      var i :| 0 <= i < |items| && Machines(items)[i] == m;
      assert IsBest(db, u, m, items[i].shown);
    }
    if i :| 0 <= i < |items| && items[i].machine == m && LabelRank(items[i].shown) >= Rank(required) {
      assert IsBest(db, u, m, items[i].shown);
      InListedOf(db, u, order, m);
      assert Machines(items)[i] == m;
    }
  }

  /** An administrator's list shows every machine at every level. */
  lemma AdminListingShows(order: seq<MachineId>, items: seq<ListItem>, m: MachineId, required: Level)
    requires IsAdminListing(order, items)
    ensures Shows(items, m, required) <==> m in order
  {
    if m in order {
      var i :| 0 <= i < |order| && order[i] == m;
      assert items[i].machine == m;
    }
  }

  /** Every listed machine carries a level. */
  lemma ListedHasLevel(db: Database, u: UserId, m: MachineId, shown: AccessLabel)
    requires Listed(db, u, m) && IsBest(db, u, m, shown)
    ensures LabelRank(shown) >= 1
  {
    var covers := Covering(db, m);
    var p :| p in db.permissions && HeldBy(db, u, p) && Covers(db, p, m);
    assert covers(p) && IsLevelSufficient(p.level, OPERATOR);
    assert Reaches(db, u, covers, OPERATOR);
  }

  /** When the check and the list say the same about a machine. */
  ghost predicate CheckIsRight(db: Database, u: UserId, m: MachineId, required: Level)
    requires u in db.users
  {
    if db.users[u].role == ADMIN then m in db.machines
    else
      || Grouped(db, m)
      || !Reaches(db, u, ElsewhereThan(m), required)
      || (m in db.machines && Reaches(db, u, OnMachine(m), required))
  }

  /**
    For every user, machine and level the check agrees with the list, if and only if: for an
    administrator, the machine exists; for anyone else, the machine belongs to a group, or no permission
    they hold on other machines reaches the level, or one on this machine does.
   */
  lemma CheckAndListAgree(db: Database, u: UserId, order: seq<MachineId>, items: seq<ListItem>,
                          m: MachineId, required: Level)
    requires NoDangling(db) && u in db.users
    requires forall k :: k in order <==> k in db.machines
    requires IsListFor(db, u, db.users[u].role, order, items)
    ensures (Allowed(db, u, m, required) <==> Shows(items, m, required)) <==> CheckIsRight(db, u, m, required)
  {
    if db.users[u].role == ADMIN {
      AdminListingShows(order, items, m, required);
    } else {
      ListingShows(db, u, order, items, m, required);
      if Grouped(db, m) {
        SameReach(db, u, Querying(db, m), Covering(db, m), required);
      } else {
        SameReach(db, u, Covering(db, m), OnMachine(m), required);
        EitherReach(db, u, Querying(db, m), OnMachine(m), ElsewhereThan(m), required);
      }
    }
  }

  /** A permission names an existing machine: deleting a machine deletes its permissions. */
  predicate NoDangling(db: Database) {
    forall p :: p in db.permissions && p.machine.Some? ==> p.machine.value in db.machines
  }

  lemma SameReach(db: Database, u: UserId, f: Permission -> bool, g: Permission -> bool, required: Level)
    requires forall p :: p in db.permissions ==> f(p) == g(p)
    ensures Reaches(db, u, f, required) == Reaches(db, u, g, required)
  {
  }

  lemma EitherReach(db: Database, u: UserId, f: Permission -> bool, g: Permission -> bool, h: Permission -> bool,
                    required: Level)
    requires forall p :: p in db.permissions ==> f(p) == (g(p) || h(p))
    ensures Reaches(db, u, f, required) == (Reaches(db, u, g, required) || Reaches(db, u, h, required))
  {
  }

  /** For a machine in a group they agree without condition. */
  lemma GroupedMachinesAgree(db: Database, u: UserId, order: seq<MachineId>, items: seq<ListItem>,
                             m: MachineId, required: Level)
    requires NoDangling(db) && u in db.users && Grouped(db, m)
    requires forall k :: k in order <==> k in db.machines
    requires IsListFor(db, u, db.users[u].role, order, items)
    ensures Allowed(db, u, m, required) <==> Shows(items, m, required)
  {
    CheckAndListAgree(db, u, order, items, m, required);
  }

  /** The owner of machine 1 passes the check for the ungrouped machine 2, which the list does not show. */
  lemma UngroupedMachinesDiffer(items: seq<ListItem>) returns (db: Database)
    ensures 7 in db.users && 2 in db.machines && Allowed(db, 7, 2, OWNER)
    ensures IsListFor(db, 7, db.users[7].role, [1, 2], items) ==> !Shows(items, 2, OPERATOR)
  {
    var p := Permission(0, Some(7), None, Some(1), None, OWNER);
    db := Database(map[7 := User(USER, [])], map[1 := None, 2 := None], [p]);
    assert Querying(db, 2)(p) && p in db.permissions && HeldBy(db, 7, p);
    if IsListing(db, 7, [1, 2], items) {
      ListingShows(db, 7, [1, 2], items, 2, OPERATOR);
    }
  }

  // ----- The list of machine groups -----

  /** The `where` clause of the machine-group query. */
  ghost predicate GroupListed(db: Database, u: UserId, g: MachineGroupId) {
    || (exists p :: p in db.permissions && HeldBy(db, u, p) && p.machineGroup == Some(g))
    || (exists m, p :: m in db.machines && db.machines[m] == Some(g)
                       && p in db.permissions && HeldBy(db, u, p) && p.machine == Some(m))
  }

  /**
    The machine-group list contains the group of every listed machine, and a group that has machines is
    listed only when one of them is.
   */
  lemma GroupsOfListedMachines(db: Database, u: UserId, g: MachineGroupId, some: MachineId)
    requires some in db.machines && db.machines[some] == Some(g)
    ensures GroupListed(db, u, g) <==> exists m :: Listed(db, u, m) && GroupOf(db, m) == Some(g)
  {
    if p :| p in db.permissions && HeldBy(db, u, p) && p.machineGroup == Some(g) {
      assert Covers(db, p, some);
      assert Listed(db, u, some);
    } else if m, p :| m in db.machines && db.machines[m] == Some(g)
                      && p in db.permissions && HeldBy(db, u, p) && p.machine == Some(m) {
      assert Covers(db, p, m);
      assert Listed(db, u, m);
    }
  }
}
