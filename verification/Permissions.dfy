/**
  The permission table as administrators and machine owners change it: the `create` and `remove`
  handlers, run alone or interleaved at their database calls. Users, groups and machines do not change.
 */
module Permissions {
  import opened Common
  import opened Rbac

  datatype Directory = Directory(
    users: map<UserId, User>,
    groups: set<GroupId>,
    machines: map<MachineId, Option<MachineGroupId>>,
    machineGroups: set<MachineGroupId>,
    userNames: map<string, UserId>,
    groupNames: map<string, GroupId>)

  /** The user as the access token describes them. */
  datatype Caller = Caller(id: UserId, isAdmin: bool)

  /** An id, or the e-mail address or name it is looked up by. */
  datatype Reference = Id(id: nat) | Name(text: string)

  datatype Request = Request(
    user: Option<Reference>,
    group: Option<Reference>,
    machine: Option<MachineId>,
    machineGroup: Option<MachineGroupId>,
    level: Level)

  /** A request with its names resolved. */
  datatype Grant = Grant(
    user: Option<UserId>,
    group: Option<GroupId>,
    machine: Option<MachineId>,
    machineGroup: Option<MachineGroupId>,
    level: Level)

  datatype Outcome<+T> = Ok(value: T) | BadRequest | Forbidden | DatabaseError

  function Db(dir: Directory, ps: seq<Permission>): Database {
    Database(dir.users, dir.machines, ps)
  }

  predicate ExactlyOne(a: bool, b: bool) {
    a != b
  }

  /** `None` for a name that is not found. */
  function Resolved(names: map<string, nat>, r: Reference): Option<nat> {
    match r
    case Id(id) => Some(id)
    case Name(text) => if text in names then Some(names[text]) else None
  }

  function ResolvedAll(dir: Directory, r: Request): Outcome<Grant> {
    if !ExactlyOne(r.user.Some?, r.group.Some?) || !ExactlyOne(r.machine.Some?, r.machineGroup.Some?) then BadRequest
    else
      var user := if r.user.Some? then Resolved(dir.userNames, r.user.value) else None;
      var group := if r.group.Some? then Resolved(dir.groupNames, r.group.value) else None;
      if user == None && group == None then BadRequest
      else if r.machine.Some? && r.machine.value !in dir.machines then BadRequest
      else if r.machineGroup.Some? && r.machineGroup.value !in dir.machineGroups then BadRequest
      else Ok(Grant(user, group, r.machine, r.machineGroup, r.level))
  }

  /** The target names the user or a group the user belongs to. */
  predicate Concerns(dir: Directory, u: UserId, user: Option<UserId>, group: Option<GroupId>) {
    user == Some(u) || (group.Some? && u in dir.users && group.value in dir.users[u].groups)
  }

  /** Who may change a permission with this subject on this machine. */
  ghost predicate MayManage(dir: Directory, ps: seq<Permission>, caller: Caller,
                            user: Option<UserId>, group: Option<GroupId>, machine: Option<MachineId>) {
    caller.isAdmin
    || (machine.Some? && Allowed(Db(dir, ps), caller.id, machine.value, OWNER)
        && !Concerns(dir, caller.id, user, group))
  }

  /** Everything `create` checks before it touches the table. */
  ghost function Checked(dir: Directory, ps: seq<Permission>, caller: Caller, r: Request): Outcome<Grant> {
    var resolved := ResolvedAll(dir, r);
    if !resolved.Ok? then resolved
    else
      var g := resolved.value;
      if MayManage(dir, ps, caller, g.user, g.group, g.machine) then resolved else Forbidden
  }

  // ----- The table -----

  predicate SamePair(p: Permission, g: Grant) {
    p.user == g.user && p.group == g.group && p.machine == g.machine && p.machineGroup == g.machineGroup
  }

  function IndexOf(ps: seq<Permission>, id: PermissionId): Option<nat> {
    if ps == [] then None
    else if ps[|ps| - 1].id == id then Some(|ps| - 1)
    else IndexOf(ps[..|ps| - 1], id)
  }

  function FindPair(ps: seq<Permission>, g: Grant): Option<PermissionId> {
    if ps == [] then None
    else if SamePair(ps[0], g) then Some(ps[0].id)
    else FindPair(ps[1..], g)
  }

  lemma {:induction false} IndexOfFinds(ps: seq<Permission>, id: PermissionId)
    ensures var k := IndexOf(ps, id);
            if k.Some? then k.value < |ps| && ps[k.value].id == id
            else forall i :: 0 <= i < |ps| ==> ps[i].id != id
  {
    if ps != [] && ps[|ps| - 1].id != id {
      IndexOfFinds(ps[..|ps| - 1], id);
    }
  }

  lemma {:induction false} FindPairFinds(ps: seq<Permission>, g: Grant)
    ensures var id := FindPair(ps, g);
            id.Some? ==> exists i :: 0 <= i < |ps| && ps[i].id == id.value && SamePair(ps[i], g)
  {
    if ps != [] {
      if SamePair(ps[0], g) {
        assert ps[0].id == FindPair(ps, g).value;
      } else {
        FindPairFinds(ps[1..], g);
        if FindPair(ps[1..], g).Some? {
          var i :| 0 <= i < |ps[1..]| && ps[1..][i].id == FindPair(ps, g).value && SamePair(ps[1..][i], g);
          assert ps[i + 1] == ps[1..][i];
        }
      }
    }
  }

  /** Two rows the unique constraints of the table do not allow together. */
  predicate Clash(p: Permission, g: Grant) {
    || (p.user.Some? && p.machine.Some? && p.user == g.user && p.machine == g.machine)
    || (p.group.Some? && p.machine.Some? && p.group == g.group && p.machine == g.machine)
    || (p.user.Some? && p.machineGroup.Some? && p.user == g.user && p.machineGroup == g.machineGroup)
    || (p.group.Some? && p.machineGroup.Some? && p.group == g.group && p.machineGroup == g.machineGroup)
  }

  /** The subject must exist; the scope has been looked up. */
  predicate SubjectExists(dir: Directory, g: Grant) {
    (g.user.Some? ==> g.user.value in dir.users) && (g.group.Some? ==> g.group.value in dir.groups)
  }

  /** The rows and the next fresh id; ids are never used twice. */
  datatype Table = Table(rows: seq<Permission>, nextId: PermissionId)

  function Inserted(dir: Directory, t: Table, g: Grant): (Outcome<PermissionId>, Table) {
    if !SubjectExists(dir, g) || exists i :: 0 <= i < |t.rows| && Clash(t.rows[i], g) then (DatabaseError, t)
    else
      var row := Permission(t.nextId, g.user, g.group, g.machine, g.machineGroup, g.level);
      (Ok(t.nextId), Table(t.rows + [row], t.nextId + 1))
  }

  function Updated(t: Table, id: PermissionId, level: Level): (Outcome<PermissionId>, Table) {
    var k := IndexOf(t.rows, id);
    if k == None || k.value >= |t.rows| then (DatabaseError, t)
    else (Ok(id), t.(rows := t.rows[k.value := t.rows[k.value].(level := level)]))
  }

  function Deleted(t: Table, id: PermissionId): (Outcome<PermissionId>, Table) {
    var k := IndexOf(t.rows, id);
    if k == None || k.value >= |t.rows| then (DatabaseError, t)
    else (Ok(id), t.(rows := t.rows[..k.value] + t.rows[k.value + 1..]))
  }

  // ----- The handlers run alone -----

  ghost function Created(dir: Directory, t: Table, caller: Caller, r: Request): (Outcome<PermissionId>, Table) {
    match Checked(dir, t.rows, caller, r)
    case Ok(g) =>
      (match FindPair(t.rows, g)
       case Some(id) => Updated(t, id, g.level)
       case None => Inserted(dir, t, g))
    case BadRequest => (BadRequest, t)
    case Forbidden => (Forbidden, t)
    case DatabaseError => (DatabaseError, t)
  }

  ghost predicate MayRemove(dir: Directory, t: Table, caller: Caller, id: PermissionId) {
    caller.isAdmin
    || var k := IndexOf(t.rows, id);
       && k.Some? && k.value < |t.rows|
       && var p := t.rows[k.value];
          MayManage(dir, t.rows, caller, p.user, p.group, p.machine)
  }

  ghost function Removed(dir: Directory, t: Table, caller: Caller, id: PermissionId): (Outcome<PermissionId>, Table) {
    if MayRemove(dir, t, caller, id) then Deleted(t, id) else (Forbidden, t)
  }

  class PermissionsController {
    const dir: Directory
    var table: Table

    constructor (dir: Directory, table: Table)
      ensures this.dir == dir && this.table == table
    {
      this.dir := dir;
      this.table := table;
    }

    /** Admin, or owner of the machine on whose permissions no subject of theirs is concerned. */
    method AssertManager(caller: Caller, user: Option<UserId>, group: Option<GroupId>, machine: Option<MachineId>)
      returns (ok: bool)
      ensures ok <==> MayManage(dir, table.rows, caller, user, group, machine)
    {
      if caller.isAdmin { return true; }
      if machine == None { return false; }
      var owner := HasAccess(Db(dir, table.rows), caller.id, machine.value, OWNER);
      if !owner { return false; }
      if user == Some(caller.id) { return false; }
      if group.Some? {
        var member := caller.id in dir.users && group.value in dir.users[caller.id].groups;
        if member { return false; }
      }
      return true;
    }

    method Create(caller: Caller, r: Request) returns (o: Outcome<PermissionId>)
      modifies this
      ensures (o, table) == Created(dir, old(table), caller, r)
    {
      var resolved := ResolvedAll(dir, r);
      if !resolved.Ok? { return BadRequest; }
      var g := resolved.value;
      var ok := AssertManager(caller, g.user, g.group, g.machine);
      if !ok { return Forbidden; }
      var existing := FindPair(table.rows, g);
      if existing.Some? {
        var (written, after) := Updated(table, existing.value, g.level);
        o, table := written, after;
      } else {
        var (written, after) := Inserted(dir, table, g);
        o, table := written, after;
      }
    }

    method Remove(caller: Caller, id: PermissionId) returns (o: Outcome<PermissionId>)
      modifies this
      ensures (o, table) == Removed(dir, old(table), caller, id)
    {
      if !caller.isAdmin {
        var k := IndexOf(table.rows, id);
        if k == None || k.value >= |table.rows| { return Forbidden; }
        var existing := table.rows[k.value];
        var ok := AssertManager(caller, existing.user, existing.group, existing.machine);
        if !ok { return Forbidden; }
      }
      var (deleted, after) := Deleted(table, id);
      o, table := deleted, after;
    }
  }

  // ----- Interleaved handlers -----

  type CallId = nat

  /** A handler between its checks and its write, with the row it read before deleting. */
  datatype Pending =
    | Finding(caller: Caller, grant: Grant)
    | Inserting(caller: Caller, grant: Grant)
    | Updating(caller: Caller, id: PermissionId, grant: Grant)
    | Deleting(caller: Caller, id: PermissionId, existing: Option<Permission>)

  datatype Event =
    | Create(call: CallId, who: Caller, request: Request)
    | Remove(call: CallId, who: Caller, id: PermissionId)
    | Find(call: CallId)
    | Write(call: CallId)

  datatype World = World(table: Table, pending: map<CallId, Pending>)

  function RowWithId(t: Table, id: PermissionId): Option<Permission> {
    var k := IndexOf(t.rows, id);
    if k.Some? && k.value < |t.rows| then Some(t.rows[k.value]) else None
  }

  function Written(dir: Directory, t: Table, p: Pending): Table {
    match p
    case Finding(caller, grant) => t
    case Inserting(caller, grant) => Inserted(dir, t, grant).1
    case Updating(caller, id, grant) => Updated(t, id, grant.level).1
    case Deleting(caller, id, existing) => Deleted(t, id).1
  }

  /** One step; an event whose handler is not at that point does nothing. */
  ghost function Step(dir: Directory, w: World, e: Event): World {
    match e
    case Create(call, who, request) =>
      var g := Checked(dir, w.table.rows, who, request);
      if call in w.pending || !g.Ok? then w else w.(pending := w.pending[call := Finding(who, g.value)])
    case Remove(call, who, id) =>
      if call in w.pending || !MayRemove(dir, w.table, who, id) then w
      else w.(pending := w.pending[call := Deleting(who, id, RowWithId(w.table, id))])
    case Find(call) =>
      if call !in w.pending || !w.pending[call].Finding? then w
      else
        var p := w.pending[call];
        var found := FindPair(w.table.rows, p.grant);
        var next := if found.Some? then Updating(p.caller, found.value, p.grant) else Inserting(p.caller, p.grant);
        w.(pending := w.pending[call := next])
    case Write(call) =>
      if call !in w.pending || w.pending[call].Finding? then w
      else World(Written(dir, w.table, w.pending[call]), w.pending - {call})
  }

  ghost function Run(dir: Directory, w: World, es: seq<Event>): World {
    if es == [] then w else Step(dir, Run(dir, w, es[..|es| - 1]), es[|es| - 1])
  }

  /** Handlers that do not overlap do what the controller does. */
  lemma CreateAloneIsASchedule(dir: Directory, t: Table, caller: Caller, r: Request)
    ensures Step(dir, Step(dir, Step(dir, World(t, map[]), Create(0, caller, r)), Find(0)), Write(0))
         == World(Created(dir, t, caller, r).1, map[])
  {
    var w := World(t, map[]);
    var w1 := Step(dir, w, Create(0, caller, r));
    var w2 := Step(dir, w1, Find(0));
    var w3 := Step(dir, w2, Write(0));
    assert w3.pending == map[];
  }

  lemma RemoveAloneIsASchedule(dir: Directory, t: Table, caller: Caller, id: PermissionId)
    ensures Step(dir, Step(dir, World(t, map[]), Remove(0, caller, id)), Write(0))
         == World(Removed(dir, t, caller, id).1, map[])
  {
    var w2 := Step(dir, Step(dir, World(t, map[]), Remove(0, caller, id)), Write(0));
    assert w2.pending == map[];
  }

  // ----- What every step keeps -----

  predicate RowShape(p: Permission) {
    ExactlyOne(p.user.Some?, p.group.Some?) && ExactlyOne(p.machine.Some?, p.machineGroup.Some?)
  }

  predicate GrantShape(g: Grant) {
    ExactlyOne(g.user.Some?, g.group.Some?) && ExactlyOne(g.machine.Some?, g.machineGroup.Some?)
  }

  predicate Apart(p: Permission, q: Permission) {
    p.id != q.id
    && (p.user != q.user || p.group != q.group || p.machine != q.machine || p.machineGroup != q.machineGroup)
  }

  /** One subject and one scope per row, no two rows for the same pair, ids distinct and below the next. */
  predicate WellFormed(t: Table) {
    && (forall i :: 0 <= i < |t.rows| ==> RowShape(t.rows[i]) && t.rows[i].id < t.nextId)
    && (forall i, j :: 0 <= i < j < |t.rows| ==> Apart(t.rows[i], t.rows[j]))
  }

  /** What the checks have established about a grant. */
  predicate Cleared(dir: Directory, caller: Caller, g: Grant) {
    GrantShape(g) && (caller.isAdmin || (g.machine.Some? && !Concerns(dir, caller.id, g.user, g.group)))
  }

  /** A row with this id, if it is still there, is the one the handler looked at. */
  predicate StillMeans(t: Table, id: PermissionId, g: Grant) {
    id < t.nextId && forall i :: 0 <= i < |t.rows| && t.rows[i].id == id ==> SamePair(t.rows[i], g)
  }

  function GrantOf(p: Permission): Grant {
    Grant(p.user, p.group, p.machine, p.machineGroup, p.level)
  }

  predicate PendingSound(dir: Directory, t: Table, p: Pending) {
    match p
    case Finding(caller, g) => Cleared(dir, caller, g)
    case Inserting(caller, g) => Cleared(dir, caller, g)
    case Updating(caller, id, g) => Cleared(dir, caller, g) && StillMeans(t, id, g)
    case Deleting(caller, id, existing) =>
      caller.isAdmin
      || (existing.Some? && Cleared(dir, caller, GrantOf(existing.value)) && StillMeans(t, id, GrantOf(existing.value)))
  }

  predicate Sound(dir: Directory, w: World) {
    WellFormed(w.table) && forall c :: c in w.pending ==> PendingSound(dir, w.table, w.pending[c])
  }

  /** Rows keep their ids, subjects and scopes, and new ids are new. */
  predicate Follows(t: Table, t': Table) {
    && t.nextId <= t'.nextId
    && forall j :: 0 <= j < |t'.rows| ==>
         || t'.rows[j].id >= t.nextId
         || exists i :: 0 <= i < |t.rows| && t.rows[i].id == t'.rows[j].id
                        && SamePair(t.rows[i], GrantOf(t'.rows[j]))
  }

  lemma StillMeansLater(t: Table, t': Table, id: PermissionId, g: Grant)
    requires StillMeans(t, id, g) && Follows(t, t')
    ensures StillMeans(t', id, g)
  {
  }

  lemma InsertKeeps(dir: Directory, t: Table, g: Grant)
    requires WellFormed(t) && GrantShape(g)
    ensures WellFormed(Inserted(dir, t, g).1) && Follows(t, Inserted(dir, t, g).1)
  {
    var t' := Inserted(dir, t, g).1;
    if t' != t {
      var n := |t.rows|;
      forall i | 0 <= i < n
        ensures Apart(t'.rows[i], t'.rows[n])
      {
        assert !Clash(t.rows[i], g);
      }
    }
  }

  lemma UpdateKeeps(t: Table, id: PermissionId, level: Level)
    requires WellFormed(t)
    ensures WellFormed(Updated(t, id, level).1) && Follows(t, Updated(t, id, level).1)
  {
    var t' := Updated(t, id, level).1;
    forall j | 0 <= j < |t'.rows|
      ensures t.rows[j].id == t'.rows[j].id && SamePair(t.rows[j], GrantOf(t'.rows[j]))
    {
    }
  }

  lemma DeleteKeeps(t: Table, id: PermissionId)
    requires WellFormed(t)
    ensures WellFormed(Deleted(t, id).1) && Follows(t, Deleted(t, id).1)
  {
    var t' := Deleted(t, id).1;
    var k := IndexOf(t.rows, id);
    forall j | 0 <= j < |t'.rows|
      ensures exists i :: 0 <= i < |t.rows| && t.rows[i] == t'.rows[j]
    {
      assert t'.rows[j] == t.rows[if k.Some? && j >= k.value then j + 1 else j] || t' == t;
    }
  }

  lemma WriteKeeps(dir: Directory, t: Table, p: Pending)
    requires WellFormed(t) && PendingSound(dir, t, p)
    ensures WellFormed(Written(dir, t, p)) && Follows(t, Written(dir, t, p))
  {
    match p
    case Finding(caller, g) =>
    case Inserting(caller, g) => InsertKeeps(dir, t, g);
    case Updating(caller, id, g) => UpdateKeeps(t, id, g.level);
    case Deleting(caller, id, existing) => DeleteKeeps(t, id);
  }

  lemma FoundMeans(t: Table, id: PermissionId, g: Grant, i: nat)
    requires WellFormed(t) && i < |t.rows| && t.rows[i].id == id && SamePair(t.rows[i], g)
    ensures StillMeans(t, id, g)
  {
    forall j | 0 <= j < |t.rows| && t.rows[j].id == id
      ensures j == i
    {
      assert i < j ==> Apart(t.rows[i], t.rows[j]);
      assert j < i ==> Apart(t.rows[j], t.rows[i]);
    }
  }

  lemma CheckedIsCleared(dir: Directory, ps: seq<Permission>, caller: Caller, r: Request)
    ensures var g := Checked(dir, ps, caller, r); g.Ok? ==> Cleared(dir, caller, g.value)
  {
  }

  lemma RemovalIsCleared(dir: Directory, t: Table, caller: Caller, id: PermissionId)
    requires WellFormed(t) && MayRemove(dir, t, caller, id)
    ensures PendingSound(dir, t, Deleting(caller, id, RowWithId(t, id)))
  {
    IndexOfFinds(t.rows, id);
    if !caller.isAdmin {
      var k := IndexOf(t.rows, id).value;
      FoundMeans(t, id, GrantOf(t.rows[k]), k);
    }
  }

  lemma StepKeeps(dir: Directory, w: World, e: Event)
    requires Sound(dir, w)
    ensures Sound(dir, Step(dir, w, e))
  {
    match e
    case Create(call, who, request) =>
      CheckedIsCleared(dir, w.table.rows, who, request);
    case Remove(call, who, id) =>
      if MayRemove(dir, w.table, who, id) {
        RemovalIsCleared(dir, w.table, who, id);
      }
    case Find(call) =>
      if call in w.pending && w.pending[call].Finding? {
        var g := w.pending[call].grant;
        FindPairFinds(w.table.rows, g);
        if FindPair(w.table.rows, g).Some? {
          var id := FindPair(w.table.rows, g).value;
          var i :| 0 <= i < |w.table.rows| && w.table.rows[i].id == id && SamePair(w.table.rows[i], g);
          FoundMeans(w.table, id, g, i);
        }
      }
    case Write(call) =>
      if call in w.pending {
        WritePendingKeeps(dir, w, call);
      }
  }

  lemma WritePendingKeeps(dir: Directory, w: World, call: CallId)
    requires Sound(dir, w) && call in w.pending
    ensures Sound(dir, World(Written(dir, w.table, w.pending[call]), w.pending - {call}))
  {
    var t' := Written(dir, w.table, w.pending[call]);
    WriteKeeps(dir, w.table, w.pending[call]);
    forall c | c in w.pending
      ensures PendingSound(dir, t', w.pending[c])
    {
      PendingLater(dir, w.table, t', w.pending[c]);
    }
  }

  lemma PendingLater(dir: Directory, t: Table, t': Table, p: Pending)
    requires PendingSound(dir, t, p) && Follows(t, t')
    ensures PendingSound(dir, t', p)
  {
    if p.Updating? {
      StillMeansLater(t, t', p.id, p.grant);
    } else if p.Deleting? && !p.caller.isAdmin {
      StillMeansLater(t, t', p.id, GrantOf(p.existing.value));
    }
  }

  /**
    In every interleaving, every row keeps exactly one subject and one scope and no two rows are for
    the same pair.
   */
  lemma {:induction false} TableStaysWellFormed(dir: Directory, t: Table, es: seq<Event>)
    requires WellFormed(t)
    ensures Sound(dir, Run(dir, World(t, map[]), es))
  {
    if es != [] {
      TableStaysWellFormed(dir, t, es[..|es| - 1]);
      StepKeeps(dir, Run(dir, World(t, map[]), es[..|es| - 1]), es[|es| - 1]);
    }
  }

  // ----- Owners cannot change their own access -----

  function Concerning(dir: Directory, u: UserId): Permission -> bool {
    (p: Permission) => Concerns(dir, u, p.user, p.group)
  }

  function OnMachineGroups(): Permission -> bool {
    (p: Permission) => p.machineGroup.Some?
  }

  /** The rows that name the user or one of their groups, in order. */
  function Own(dir: Directory, ps: seq<Permission>, u: UserId): seq<Permission> {
    Select(ps, Concerning(dir, u))
  }

  lemma {:induction false} SelectAppend(a: seq<Permission>, b: seq<Permission>, f: Permission -> bool)
    ensures Select(a + b, f) == Select(a, f) + Select(b, f)
  {
    if a == [] {
      assert a + b == b;
    } else {
      HeadTail(a, b);
      SelectAppend(a[1..], b, f);
      Associative(if f(a[0]) then [a[0]] else [], Select(a[1..], f), Select(b, f));
    }
  }

  lemma SelectOne(p: Permission, f: Permission -> bool)
    ensures Select([p], f) == if f(p) then [p] else []
  {
    assert [p][1..] == [];
  }

  lemma SelectSkips(a: seq<Permission>, p: Permission, b: seq<Permission>, f: Permission -> bool)
    requires !f(p)
    ensures Select(a + [p] + b, f) == Select(a, f) + Select(b, f)
  {
    SelectAppend(a + [p], b, f);
    SelectAppend(a, [p], f);
    SelectOne(p, f);
  }

  lemma Around(ps: seq<Permission>, k: nat)
    requires k < |ps|
    ensures ps == ps[..k] + [ps[k]] + ps[k + 1..]
  {
  }

  lemma SelectAround(ps: seq<Permission>, k: nat, f: Permission -> bool)
    requires k < |ps| && !f(ps[k])
    ensures Select(ps, f) == Select(ps[..k], f) + Select(ps[k + 1..], f)
  {
    Around(ps, k);
    SelectSkips(ps[..k], ps[k], ps[k + 1..], f);
  }

  lemma SelectIgnoresWrite(dir: Directory, t: Table, p: Pending, g: Grant, f: Permission -> bool)
    requires p.Inserting? ==> p.grant == g
    requires p.Updating? || p.Deleting? ==> StillMeans(t, p.id, g)
    requires forall q :: SamePair(q, g) ==> !f(q)
    ensures Select(Written(dir, t, p).rows, f) == Select(t.rows, f)
  {
    var t' := Written(dir, t, p);
    if p.Inserting? {
      if t' != t {
        SelectAppend(t.rows, [t'.rows[|t.rows|]], f);
        SelectOne(t'.rows[|t.rows|], f);
      }
    } else if !p.Finding? && IndexOf(t.rows, p.id).Some? {
      IndexOfFinds(t.rows, p.id);
      var k := IndexOf(t.rows, p.id).value;
      SelectAround(t.rows, k, f);
      if p.Updating? {
        SelectAround(t'.rows, k, f);
        assert t'.rows[..k] == t.rows[..k] && t'.rows[k + 1..] == t.rows[k + 1..];
      } else {
        SelectAppend(t.rows[..k], t.rows[k + 1..], f);
      }
    }
  }

  /** Who takes a step. */
  function Actor(w: World, e: Event): Option<Caller> {
    if e.Create? || e.Remove? then Some(e.who)
    else if e.call in w.pending then Some(w.pending[e.call].caller)
    else None
  }

  lemma StepLeavesOwnRows(dir: Directory, w: World, e: Event, c: Caller)
    requires Sound(dir, w) && Actor(w, e) == Some(c) && !c.isAdmin
    ensures Own(dir, Step(dir, w, e).table.rows, c.id) == Own(dir, w.table.rows, c.id)
    ensures Select(Step(dir, w, e).table.rows, OnMachineGroups()) == Select(w.table.rows, OnMachineGroups())
  {
    if e.Write? && e.call in w.pending && !w.pending[e.call].Finding? {
      var p := w.pending[e.call];
      assert PendingSound(dir, w.table, p);
      var g := if p.Deleting? then GrantOf(p.existing.value) else p.grant;
      SelectIgnoresWrite(dir, w.table, p, g, Concerning(dir, c.id));
      SelectIgnoresWrite(dir, w.table, p, g, OnMachineGroups());
    }
  }

  /** The check answers the same, and the same list is the user's list. */
  ghost predicate SameAccess(dir: Directory, ps: seq<Permission>, qs: seq<Permission>, u: UserId,
                             m: MachineId, required: Level, order: seq<MachineId>, items: seq<ListItem>) {
    && Allowed(Db(dir, ps), u, m, required) == Allowed(Db(dir, qs), u, m, required)
    && IsListing(Db(dir, ps), u, order, items) == IsListing(Db(dir, qs), u, order, items)
  }

  /** A user's access depends on no rows but those that name them or their groups. */
  lemma AccessFollowsOwnRows(dir: Directory, ps: seq<Permission>, qs: seq<Permission>, u: UserId,
                             m: MachineId, required: Level, order: seq<MachineId>, items: seq<ListItem>)
    requires Own(dir, ps, u) == Own(dir, qs, u)
    ensures SameAccess(dir, ps, qs, u, m, required, order, items)
  {
    ReachFollowsOwnRows(dir, ps, qs, u, Querying(Db(dir, ps), m), Querying(Db(dir, qs), m), required);
    ReachFollowsOwnRows(dir, qs, ps, u, Querying(Db(dir, qs), m), Querying(Db(dir, ps), m), required);
    ListFollowsOwnRows(dir, ps, qs, u, order, items);
    ListFollowsOwnRows(dir, qs, ps, u, order, items);
  }

  lemma ReachFollowsOwnRows(dir: Directory, ps: seq<Permission>, qs: seq<Permission>, u: UserId,
                            f: Permission -> bool, g: Permission -> bool, required: Level)
    requires Own(dir, ps, u) == Own(dir, qs, u) && forall p :: f(p) == g(p)
    ensures Reaches(Db(dir, ps), u, f, required) ==> Reaches(Db(dir, qs), u, g, required)
  {
    if Reaches(Db(dir, ps), u, f, required) {
      var p :| p in ps && HeldBy(Db(dir, ps), u, p) && f(p) && IsLevelSufficient(p.level, required);
      InSelect(ps, Concerning(dir, u), p);
      InSelect(qs, Concerning(dir, u), p);
      assert HeldBy(Db(dir, qs), u, p) && g(p);
    }
  }

  lemma ListedFollowsOwnRows(dir: Directory, ps: seq<Permission>, qs: seq<Permission>, u: UserId, m: MachineId)
    requires Own(dir, ps, u) == Own(dir, qs, u)
    ensures Listed(Db(dir, ps), u, m) ==> Listed(Db(dir, qs), u, m)
  {
    if Listed(Db(dir, ps), u, m) {
      var p :| p in ps && HeldBy(Db(dir, ps), u, p) && Covers(Db(dir, ps), p, m);
      InSelect(ps, Concerning(dir, u), p);
      InSelect(qs, Concerning(dir, u), p);
      assert p in Db(dir, qs).permissions && HeldBy(Db(dir, qs), u, p) && Covers(Db(dir, qs), p, m);
    }
  }

  lemma {:induction false} SameListed(dir: Directory, ps: seq<Permission>, qs: seq<Permission>, u: UserId,
                                      order: seq<MachineId>)
    requires Own(dir, ps, u) == Own(dir, qs, u)
    ensures ListedOf(Db(dir, ps), u, order) == ListedOf(Db(dir, qs), u, order)
  {
    if order != [] {
      SameListed(dir, ps, qs, u, order[..|order| - 1]);
      ListedFollowsOwnRows(dir, ps, qs, u, order[|order| - 1]);
      ListedFollowsOwnRows(dir, qs, ps, u, order[|order| - 1]);
    }
  }

  lemma BestFollowsOwnRows(dir: Directory, ps: seq<Permission>, qs: seq<Permission>, u: UserId,
                           m: MachineId, shown: AccessLabel)
    requires Own(dir, ps, u) == Own(dir, qs, u) && IsBest(Db(dir, ps), u, m, shown)
    ensures IsBest(Db(dir, qs), u, m, shown)
  {
    forall required
      ensures LabelRank(shown) >= Rank(required) <==> Reaches(Db(dir, qs), u, Covering(Db(dir, qs), m), required)
    {
      ReachFollowsOwnRows(dir, ps, qs, u, Covering(Db(dir, ps), m), Covering(Db(dir, qs), m), required);
      ReachFollowsOwnRows(dir, qs, ps, u, Covering(Db(dir, qs), m), Covering(Db(dir, ps), m), required);
    }
  }

  lemma ListFollowsOwnRows(dir: Directory, ps: seq<Permission>, qs: seq<Permission>, u: UserId,
                           order: seq<MachineId>, items: seq<ListItem>)
    requires Own(dir, ps, u) == Own(dir, qs, u)
    ensures IsListing(Db(dir, ps), u, order, items) ==> IsListing(Db(dir, qs), u, order, items)
  {
    if IsListing(Db(dir, ps), u, order, items) {
      SameListed(dir, ps, qs, u, order);
      forall i | 0 <= i < |items|
        ensures IsBest(Db(dir, qs), u, items[i].machine, items[i].shown)
      {
        BestFollowsOwnRows(dir, ps, qs, u, items[i].machine, items[i].shown);
      }
    }
  }

  /**
    Owners cannot change their own access: in every interleaving of any number of handlers, a step of a
    caller who is not an administrator leaves every row naming the caller or one of their groups as it
    was, so the check answers the same on every machine and their list stays the same list; and it
    touches no permission on a machine group.
   */
  lemma OwnersKeepTheirAccess(dir: Directory, t: Table, es: seq<Event>, e: Event, c: Caller,
                              m: MachineId, required: Level, order: seq<MachineId>, items: seq<ListItem>)
    requires WellFormed(t)
    requires var w := Run(dir, World(t, map[]), es); Actor(w, e) == Some(c) && !c.isAdmin
    ensures var w := Run(dir, World(t, map[]), es);
            var before, after := w.table.rows, Step(dir, w, e).table.rows;
            && Own(dir, after, c.id) == Own(dir, before, c.id)
            && SameAccess(dir, before, after, c.id, m, required, order, items)
            && Select(after, OnMachineGroups()) == Select(before, OnMachineGroups())
  {
    var w := Run(dir, World(t, map[]), es);
    TableStaysWellFormed(dir, t, es);
    StepLeavesOwnRows(dir, w, e, c);
    AccessFollowsOwnRows(dir, w.table.rows, Step(dir, w, e).table.rows, c.id, m, required, order, items);
  }

  // ----- What a handler achieves alone -----

  function OtherPairs(g: Grant): Permission -> bool {
    (p: Permission) => !SamePair(p, g)
  }

  function OtherIds(id: PermissionId): Permission -> bool {
    (p: Permission) => p.id != id
  }

  lemma {:induction false} FindPairMisses(ps: seq<Permission>, g: Grant, i: nat)
    requires FindPair(ps, g) == None && i < |ps|
    ensures !SamePair(ps[i], g)
  {
    if i > 0 {
      FindPairMisses(ps[1..], g, i - 1);
    }
  }

  /**
    A permitted request for an existing subject succeeds: the table then holds the requested level for
    the pair, whether or not it had one before, and no other row has changed.
   */
  lemma CreateGrants(dir: Directory, t: Table, caller: Caller, r: Request)
    requires WellFormed(t)
    requires Checked(dir, t.rows, caller, r).Ok? && SubjectExists(dir, Checked(dir, t.rows, caller, r).value)
    ensures var g := Checked(dir, t.rows, caller, r).value;
            var (o, t') := Created(dir, t, caller, r);
            && o.Ok?
            && Holds(t', o.value, g)
            && Select(t'.rows, OtherPairs(g)) == Select(t.rows, OtherPairs(g))
  {
    var g := Checked(dir, t.rows, caller, r).value;
    if FindPair(t.rows, g).Some? {
      UpdateGrants(dir, t, caller, g);
    } else {
      InsertGrants(dir, t, caller, g);
    }
  }

  predicate Holds(t: Table, id: PermissionId, g: Grant) {
    exists p :: p in t.rows && p.id == id && SamePair(p, g) && p.level == g.level
  }

  lemma UpdateGrants(dir: Directory, t: Table, caller: Caller, g: Grant)
    requires WellFormed(t) && FindPair(t.rows, g).Some?
    ensures var id := FindPair(t.rows, g).value;
            var (o, t') := Updated(t, id, g.level);
            o == Ok(id) && Holds(t', id, g) && Select(t'.rows, OtherPairs(g)) == Select(t.rows, OtherPairs(g))
  {
    var id := FindPair(t.rows, g).value;
    FindPairFinds(t.rows, g);
    IndexOfFinds(t.rows, id);
    var i :| 0 <= i < |t.rows| && t.rows[i].id == id && SamePair(t.rows[i], g);
    FoundMeans(t, id, g, i);
    SelectIgnoresWrite(dir, t, Updating(caller, id, g), g, OtherPairs(g));
    assert Updated(t, id, g.level).1.rows[IndexOf(t.rows, id).value] in Updated(t, id, g.level).1.rows;
  }

  lemma InsertGrants(dir: Directory, t: Table, caller: Caller, g: Grant)
    requires WellFormed(t) && FindPair(t.rows, g) == None && GrantShape(g) && SubjectExists(dir, g)
    ensures var (o, t') := Inserted(dir, t, g);
            && o == Ok(t.nextId)
            && Holds(t', t.nextId, g)
            && Select(t'.rows, OtherPairs(g)) == Select(t.rows, OtherPairs(g))
  {
    forall i | 0 <= i < |t.rows|
      ensures !Clash(t.rows[i], g)
    {
      FindPairMisses(t.rows, g, i);
      assert RowShape(t.rows[i]);
    }
    SelectIgnoresWrite(dir, t, Inserting(caller, g), g, OtherPairs(g));
    var t' := Inserted(dir, t, g).1;
    assert t'.rows[|t.rows|] in t'.rows;
  }

  /** A permitted removal of a row removes that row and no other; the id is then unknown. */
  lemma RemoveRevokes(dir: Directory, t: Table, caller: Caller, id: PermissionId)
    requires WellFormed(t) && MayRemove(dir, t, caller, id) && IndexOf(t.rows, id).Some?
    ensures var (o, t') := Removed(dir, t, caller, id);
            && o == Ok(id)
            && IndexOf(t'.rows, id) == None
            && t'.rows == Select(t.rows, OtherIds(id))
  {
    IndexOfFinds(t.rows, id);
    var k := IndexOf(t.rows, id).value;
    OnlyRow(t, k);
    SelectAround(t.rows, k, OtherIds(id));
    SelectOthers(t.rows[..k], id);
    SelectOthers(t.rows[k + 1..], id);
    NotFound(t.rows[..k] + t.rows[k + 1..], id);
  }

  predicate NoRow(ps: seq<Permission>, id: PermissionId) {
    forall i :: 0 <= i < |ps| ==> ps[i].id != id
  }

  /** An id is on one row only. */
  lemma OnlyRow(t: Table, k: nat)
    requires WellFormed(t) && k < |t.rows|
    ensures NoRow(t.rows[..k], t.rows[k].id) && NoRow(t.rows[k + 1..], t.rows[k].id)
    ensures NoRow(t.rows[..k] + t.rows[k + 1..], t.rows[k].id)
  {
    forall i | 0 <= i < k
      ensures t.rows[i].id != t.rows[k].id
    {
      assert Apart(t.rows[i], t.rows[k]);
    }
    forall i | k < i < |t.rows|
      ensures t.rows[i].id != t.rows[k].id
    {
      assert Apart(t.rows[k], t.rows[i]);
    }
  }

  lemma {:induction false} NotFound(ps: seq<Permission>, id: PermissionId)
    requires NoRow(ps, id)
    ensures IndexOf(ps, id) == None
  {
    if ps != [] {
      NotFound(ps[..|ps| - 1], id);
    }
  }

  lemma {:induction false} SelectOthers(ps: seq<Permission>, id: PermissionId)
    requires NoRow(ps, id)
    ensures Select(ps, OtherIds(id)) == ps
  {
    if ps != [] {
      SelectOthers(ps[1..], id);
    }
  }

  // ----- Requests and their answers -----

  /** The id a reference stands for: itself, or the entry of its name. */
  predicate Denotes(names: map<string, nat>, r: Reference, id: nat) {
    (r.Id? && r.id == id) || (r.Name? && r.text in names && names[r.text] == id)
  }

  /** One subject and one scope, a name that is known, and a machine or machine group that exists. */
  ghost predicate Posed(dir: Directory, r: Request) {
    && (r.user.Some? != r.group.Some?)
    && (r.machine.Some? != r.machineGroup.Some?)
    && (r.user.Some? ==> exists u :: Denotes(dir.userNames, r.user.value, u))
    && (r.group.Some? ==> exists g :: Denotes(dir.groupNames, r.group.value, g))
    && (r.machine.Some? ==> r.machine.value in dir.machines)
    && (r.machineGroup.Some? ==> r.machineGroup.value in dir.machineGroups)
  }

  /** An administrator, or an owner of the machine asking neither for themselves nor for a group of theirs. */
  ghost predicate Entitled(dir: Directory, ps: seq<Permission>, caller: Caller, r: Request) {
    || caller.isAdmin
    || (&& r.machine.Some?
        && Allowed(Db(dir, ps), caller.id, r.machine.value, OWNER)
        && (r.user.Some? ==> !Denotes(dir.userNames, r.user.value, caller.id))
        && (r.group.Some? && caller.id in dir.users ==>
              forall g :: g in dir.users[caller.id].groups ==> !Denotes(dir.groupNames, r.group.value, g)))
  }

  /** The user or group asked for exists. */
  ghost predicate SubjectKnown(dir: Directory, r: Request) {
    && (r.user.Some? ==> exists u :: Denotes(dir.userNames, r.user.value, u) && u in dir.users)
    && (r.group.Some? ==> exists g :: Denotes(dir.groupNames, r.group.value, g) && g in dir.groups)
  }

  lemma ResolvedDenotes(names: map<string, nat>, r: Reference, id: nat)
    ensures Resolved(names, r) == Some(id) <==> Denotes(names, r, id)
  {
  }

  lemma NotResolved(names: map<string, nat>, r: Reference)
    ensures Resolved(names, r) == None <==> forall id :: !Denotes(names, r, id)
  {
    if Resolved(names, r).Some? {
      assert Denotes(names, r, Resolved(names, r).value);
    }
  }

  lemma ResolvedExactly(dir: Directory, r: Request)
    ensures ResolvedAll(dir, r) == BadRequest <==> !Posed(dir, r)
    ensures ResolvedAll(dir, r).Ok? <==> Posed(dir, r)
    ensures ResolvedAll(dir, r).Ok? ==> Asked(dir, r, ResolvedAll(dir, r).value)
  {
    if r.user.Some? {
      NotResolved(dir.userNames, r.user.value);
    }
    if r.group.Some? {
      NotResolved(dir.groupNames, r.group.value);
    }
  }

  /** The grant has the level, scope and subject of the request. */
  predicate Asked(dir: Directory, r: Request, g: Grant) {
    && g.level == r.level && g.machine == r.machine && g.machineGroup == r.machineGroup
    && (if r.user.Some? then g.user.Some? && Denotes(dir.userNames, r.user.value, g.user.value) else g.user == None)
    && (if r.group.Some? then g.group.Some? && Denotes(dir.groupNames, r.group.value, g.group.value)
        else g.group == None)
  }

  lemma DenotesOne(names: map<string, nat>, r: Reference, a: nat, b: nat)
    requires Denotes(names, r, a) && Denotes(names, r, b)
    ensures a == b
  {
  }

  lemma EntitledExactly(dir: Directory, ps: seq<Permission>, caller: Caller, r: Request, g: Grant)
    requires Asked(dir, r, g)
    ensures MayManage(dir, ps, caller, g.user, g.group, g.machine) <==> Entitled(dir, ps, caller, r)
  {
    if r.user.Some? {
      ResolvedDenotes(dir.userNames, r.user.value, g.user.value);
      ResolvedDenotes(dir.userNames, r.user.value, caller.id);
    }
    if r.group.Some? && caller.id in dir.users {
      forall h | h in dir.users[caller.id].groups
        ensures Denotes(dir.groupNames, r.group.value, h) <==> h == g.group.value
      {
        if Denotes(dir.groupNames, r.group.value, h) {
          DenotesOne(dir.groupNames, r.group.value, h, g.group.value);
        }
      }
    }
  }

  lemma SubjectExactly(dir: Directory, r: Request, g: Grant)
    requires Asked(dir, r, g)
    ensures SubjectExists(dir, g) <==> SubjectKnown(dir, r)
  {
    if r.user.Some? {
      if u :| Denotes(dir.userNames, r.user.value, u) && u in dir.users {
        DenotesOne(dir.userNames, r.user.value, u, g.user.value);
      }
    } else {
      if h :| r.group.Some? && Denotes(dir.groupNames, r.group.value, h) && h in dir.groups {
        DenotesOne(dir.groupNames, r.group.value, h, g.group.value);
      }
    }
  }

  /** The row is for the subject and the scope of the request. */
  predicate Matches(dir: Directory, r: Request, p: Permission) {
    && p.machine == r.machine && p.machineGroup == r.machineGroup
    && (if r.user.Some? then p.user.Some? && Denotes(dir.userNames, r.user.value, p.user.value) else p.user == None)
    && (if r.group.Some? then p.group.Some? && Denotes(dir.groupNames, r.group.value, p.group.value)
        else p.group == None)
  }

  ghost predicate HasRow(dir: Directory, t: Table, r: Request) {
    exists p :: p in t.rows && Matches(dir, r, p)
  }

  lemma MatchesPair(dir: Directory, r: Request, g: Grant, p: Permission)
    requires Asked(dir, r, g)
    ensures Matches(dir, r, p) <==> SamePair(p, g)
  {
    if Matches(dir, r, p) {
      if r.user.Some? {
        DenotesOne(dir.userNames, r.user.value, p.user.value, g.user.value);
      }
      if r.group.Some? {
        DenotesOne(dir.groupNames, r.group.value, p.group.value, g.group.value);
      }
    }
  }

  /**
    The answer to a request, from the request alone: it is refused as malformed, as forbidden, or for an
    unknown subject, and in no other case.
   */
  lemma CreateDecides(dir: Directory, t: Table, caller: Caller, r: Request)
    requires WellFormed(t)
    ensures var o := Created(dir, t, caller, r).0;
            && (o == BadRequest <==> !Posed(dir, r))
            && (o == Forbidden <==> Posed(dir, r) && !Entitled(dir, t.rows, caller, r))
            && (o.Ok? <==> Posed(dir, r) && Entitled(dir, t.rows, caller, r)
                           && (SubjectKnown(dir, r) || HasRow(dir, t, r)))
    ensures !Created(dir, t, caller, r).0.Ok? ==> Created(dir, t, caller, r).1 == t
  {
    ResolvedExactly(dir, r);
    if Posed(dir, r) {
      var g := ResolvedAll(dir, r).value;
      EntitledExactly(dir, t.rows, caller, r, g);
      if Entitled(dir, t.rows, caller, r) {
        SubjectExactly(dir, r, g);
        HasRowExactly(dir, t, r, g);
        if FindPair(t.rows, g).Some? {
          UpdateGrants(dir, t, caller, g);
        } else if SubjectExists(dir, g) {
          InsertGrants(dir, t, caller, g);
        }
      }
    }
  }

  lemma HasRowExactly(dir: Directory, t: Table, r: Request, g: Grant)
    requires Asked(dir, r, g)
    ensures HasRow(dir, t, r) <==> FindPair(t.rows, g).Some?
  {
    FindPairFinds(t.rows, g);
    if FindPair(t.rows, g).Some? {
      var i :| 0 <= i < |t.rows| && t.rows[i].id == FindPair(t.rows, g).value && SamePair(t.rows[i], g);
      MatchesPair(dir, r, g, t.rows[i]);
      assert t.rows[i] in t.rows;
    }
    if p :| p in t.rows && Matches(dir, r, p) {
      MatchesPair(dir, r, g, p);
      var i :| 0 <= i < |t.rows| && t.rows[i] == p;
      if FindPair(t.rows, g) == None {
        FindPairMisses(t.rows, g, i);
      }
    }
  }

  /**
    What a request that is answered well has done, from the request alone: the row with the returned id
    is for its subject and scope and has its level, and every row for another subject or scope is there
    exactly if it was.
   */
  lemma CreateStores(dir: Directory, t: Table, caller: Caller, r: Request)
    requires WellFormed(t) && Created(dir, t, caller, r).0.Ok?
    ensures var (o, t') := Created(dir, t, caller, r);
            && (exists p :: p in t'.rows && p.id == o.value && Matches(dir, r, p) && p.level == r.level)
            && (forall q :: !Matches(dir, r, q) ==> (q in t'.rows <==> q in t.rows))
  {
    ResolvedExactly(dir, r);
    var g := ResolvedAll(dir, r).value;
    var (o, t') := Created(dir, t, caller, r);
    StoredPair(dir, t, caller, g, r);
    var p :| p in t'.rows && p.id == o.value && SamePair(p, g) && p.level == g.level;
    MatchesPair(dir, r, g, p);
    forall q | !Matches(dir, r, q)
      ensures q in t'.rows <==> q in t.rows
    {
      MatchesPair(dir, r, g, q);
      InSelect(t.rows, OtherPairs(g), q);
      InSelect(t'.rows, OtherPairs(g), q);
    }
  }

  lemma StoredPair(dir: Directory, t: Table, caller: Caller, g: Grant, r: Request)
    requires WellFormed(t) && Created(dir, t, caller, r).0.Ok? && ResolvedAll(dir, r) == Ok(g)
    ensures var (o, t') := Created(dir, t, caller, r);
            Holds(t', o.value, g) && Select(t'.rows, OtherPairs(g)) == Select(t.rows, OtherPairs(g))
  {
    if FindPair(t.rows, g).Some? {
      UpdateGrants(dir, t, caller, g);
    } else {
      InsertGrants(dir, t, caller, g);
    }
  }

  /** Who may remove the row: an administrator, or an owner of its machine whom it does not concern. */
  ghost predicate EntitledToRemove(dir: Directory, ps: seq<Permission>, caller: Caller, p: Permission) {
    || caller.isAdmin
    || (&& p.machine.Some?
        && Allowed(Db(dir, ps), caller.id, p.machine.value, OWNER)
        && p.user != Some(caller.id)
        && !(p.group.Some? && caller.id in dir.users && p.group.value in dir.users[caller.id].groups))
  }

  /** The answer to a removal: it succeeds for a row that is there and that the caller may remove. */
  lemma RemoveDecides(dir: Directory, t: Table, caller: Caller, id: PermissionId)
    requires WellFormed(t)
    ensures var (o, t') := Removed(dir, t, caller, id);
            && (o == Ok(id) <==> exists p :: p in t.rows && p.id == id && EntitledToRemove(dir, t.rows, caller, p))
            && (o.Ok? ==> o == Ok(id) && forall q :: q in t'.rows <==> q in t.rows && q.id != id)
            && (!o.Ok? ==> o == (if caller.isAdmin then DatabaseError else Forbidden) && t' == t)
  {
    IndexOfFinds(t.rows, id);
    var k := IndexOf(t.rows, id);
    if k.Some? {
      var p := t.rows[k.value];
      FoundMeansRow(t, k.value);
      if MayRemove(dir, t, caller, id) {
        RemoveRevokes(dir, t, caller, id);
        forall q
          ensures q in Removed(dir, t, caller, id).1.rows <==> q in t.rows && q.id != id
        {
          InSelect(t.rows, OtherIds(id), q);
        }
      }
    }
  }

  /** A row is the only one with its id. */
  lemma FoundMeansRow(t: Table, k: nat)
    requires WellFormed(t) && k < |t.rows|
    ensures forall p :: p in t.rows && p.id == t.rows[k].id ==> p == t.rows[k]
  {
    forall i | 0 <= i < |t.rows| && t.rows[i].id == t.rows[k].id
      ensures i == k
    {
      assert i < k ==> Apart(t.rows[i], t.rows[k]);
      assert k < i ==> Apart(t.rows[k], t.rows[i]);
    }
  }
}
