/**
  The tabs of the session page: groups of sessions shown side by side, and the updates that add, close,
  merge, move and rearrange them.
 */
module SessionTabs {
  import opened Common

  type SessionId = nat
  type GroupId = nat

  datatype Layout = Single | SplitH | SplitV | Triple | TripleV | Quad

  datatype Protocol = Ssh | Rdp

  datatype Session = Session(id: SessionId, machine: nat, protocol: Protocol)

  datatype Group = Group(id: GroupId, layout: Layout, sessions: seq<Session>, focused: SessionId)

  datatype State = State(groups: seq<Group>, active: Option<GroupId>)

  function Slots(layout: Layout): nat {
    match layout
    case Single => 1
    case SplitH => 2
    case SplitV => 2
    case Triple => 3
    case TripleV => 3
    case Quad => 4
  }

  function FirstThatFits(candidates: seq<Layout>, n: nat): Layout {
    if candidates == [] then Quad
    else if Slots(candidates[0]) >= n then candidates[0]
    else FirstThatFits(candidates[1..], n)
  }

  function Upgraded(layout: Layout, n: nat): Layout {
    if n > Slots(layout) then FirstThatFits([Single, SplitH, SplitV, Triple, TripleV, Quad], n) else layout
  }

  function BestLayout(n: nat): Layout {
    if n <= 1 then Single
    else if n == 2 then SplitH
    else if n == 3 then Triple
    else Quad
  }

  // ----- Searching and mapping -----

  function IndexOf(ss: seq<Session>, id: SessionId): (k: int)
    ensures -1 <= k < |ss| && (k >= 0 ==> ss[k].id == id)
  {
    if ss == [] then -1
    else if ss[0].id == id then 0
    else
      var k := IndexOf(ss[1..], id);
      if k < 0 then -1 else k + 1
  }

  function GroupIndex(gs: seq<Group>, id: GroupId): (k: int)
    ensures -1 <= k < |gs| && (k >= 0 ==> gs[k].id == id)
  {
    if gs == [] then -1
    else if gs[0].id == id then 0
    else
      var k := GroupIndex(gs[1..], id);
      if k < 0 then -1 else k + 1
  }

  function Without(ss: seq<Session>, id: SessionId): seq<Session> {
    if ss == [] then [] else (if ss[0].id == id then [] else [ss[0]]) + Without(ss[1..], id)
  }

  function WithoutGroup(gs: seq<Group>, id: GroupId): seq<Group> {
    if gs == [] then [] else (if gs[0].id == id then [] else [gs[0]]) + WithoutGroup(gs[1..], id)
  }

  function MapGroup(gs: seq<Group>, id: GroupId, f: Group -> Group): seq<Group> {
    seq(|gs|, i requires 0 <= i < |gs| => if gs[i].id == id then f(gs[i]) else gs[i])
  }

  // ----- The updates -----

  function Adding(s: Session): Group -> Group {
    (g: Group) =>
      g.(sessions := g.sessions + [s], focused := s.id, layout := Upgraded(g.layout, |g.sessions| + 1))
  }

  function AddSession(st: State, s: Session): State {
    if st.active == None then st else st.(groups := MapGroup(st.groups, st.active.value, Adding(s)))
  }

  function Keeping(remaining: seq<Session>, focused: SessionId): Group -> Group {
    (g: Group) => g.(sessions := remaining, focused := focused, layout := BestLayout(|remaining|))
  }

  /** The session that gets the focus when the focused one is closed: the one before it, if any. */
  function FocusAfterClose(g: Group, id: SessionId): SessionId {
    var remaining := Without(g.sessions, id);
    if remaining == [] || g.focused != id then g.focused
    else
      var k := IndexOf(g.sessions, id) - 1;
      var i := if k < 0 then 0 else k;
      if i < |remaining| then remaining[i].id else remaining[0].id
  }

  /** Closing the very last session leaves the page and the state as they are. */
  function CloseSession(st: State, gid: GroupId, sid: SessionId): State {
    var k := GroupIndex(st.groups, gid);
    if k < 0 then st
    else
      var remaining := Without(st.groups[k].sessions, sid);
      if remaining == [] then
        var others := WithoutGroup(st.groups, gid);
        if others == [] then st
        else State(others, if st.active == Some(gid) then Some(others[0].id) else st.active)
      else st.(groups := MapGroup(st.groups, gid, Keeping(remaining, FocusAfterClose(st.groups[k], sid))))
  }

  function Swapped(ss: seq<Session>, i: nat, j: nat): seq<Session>
    requires i < |ss| && j < |ss|
  {
    ss[i := ss[j]][j := ss[i]]
  }

  function Arranged(ss: seq<Session>, layout: Layout): Group -> Group {
    (g: Group) => g.(sessions := ss, layout := layout)
  }

  function ChangeLayout(st: State, gid: GroupId, layout: Layout): State {
    var k := GroupIndex(st.groups, gid);
    if k < 0 then st
    else
      var g := st.groups[k];
      var i := IndexOf(g.sessions, g.focused);
      var ss := if layout != Single && i >= Slots(layout) then Swapped(g.sessions, 0, i) else g.sessions;
      st.(groups := MapGroup(st.groups, gid, Arranged(ss, layout)))
  }

  function HeadFocus(ss: seq<Session>): SessionId {
    if ss == [] then 0 else ss[0].id
  }

  function ExecuteMerge(st: State, from: GroupId, sid: SessionId, to: GroupId): State {
    if from == to then st
    else
      var f, t := GroupIndex(st.groups, from), GroupIndex(st.groups, to);
      var moved := State(st.groups, Some(to));
      if f < 0 || t < 0 then moved
      else
        var i := IndexOf(st.groups[f].sessions, sid);
        if i < 0 then moved
        else
          var s := st.groups[f].sessions[i];
          var left := Without(st.groups[f].sessions, sid);
          var kept := if left == [] then WithoutGroup(st.groups, from)
                      else MapGroup(st.groups, from, Keeping(left, HeadFocus(left)));
          State(MapGroup(kept, to, Adding(s)), Some(to))
  }

  function InsertAt(gs: seq<Group>, pos: nat, g: Group): seq<Group> {
    var p := if pos <= |gs| then pos else |gs|;
    gs[..p] + [g] + gs[p..]
  }

  /** A new group for one session of `g`. */
  function Alone(g: Group, sid: SessionId, newId: GroupId): Group
    requires IndexOf(g.sessions, sid) >= 0
  {
    Group(newId, Single, [g.sessions[IndexOf(g.sessions, sid)]], sid)
  }

  /** `newId` is the id of the group made for a session that leaves its group. */
  function ExecuteDropToZone(st: State, from: GroupId, sid: SessionId, pos: nat, newId: GroupId): State {
    var f := GroupIndex(st.groups, from);
    if f < 0 then st
    else
      var g := st.groups[f];
      var i := IndexOf(g.sessions, sid);
      if i < 0 then st
      else
        var left := Without(g.sessions, sid);
        if left == [] then st.(groups := InsertAt(WithoutGroup(st.groups, from), pos, g.(layout := Single)))
        else st.(groups := InsertAt(MapGroup(st.groups, from, Keeping(left, HeadFocus(left))), pos,
                                    Alone(g, sid, newId)))
  }

  /** Take the element at `i` out and put it back at `j` of what remains. */
  function Moved(ss: seq<Session>, i: nat, j: nat): seq<Session>
    requires i < |ss| && j < |ss|
  {
    var rest := ss[..i] + ss[i + 1..];
    rest[..j] + [ss[i]] + rest[j..]
  }

  function Reorder(st: State, gid: GroupId, sid: SessionId, target: SessionId): State {
    var k := GroupIndex(st.groups, gid);
    if k < 0 then st
    else
      var ss := st.groups[k].sessions;
      var i, j := IndexOf(ss, sid), IndexOf(ss, target);
      if i < 0 || j < 0 then st
      else st.(groups := MapGroup(st.groups, gid, Arranged(Moved(ss, i, j), st.groups[k].layout)))
  }

  function Focusing(sid: SessionId): Group -> Group {
    (g: Group) => g.(focused := sid)
  }

  /** A click on the tab of a session. */
  function Click(st: State, gid: GroupId, sid: SessionId): State {
    State(MapGroup(st.groups, gid, Focusing(sid)), Some(gid))
  }

  // ----- What the tabs hold -----

  /** All sessions with their multiplicities. */
  function Bag(gs: seq<Group>): multiset<Session> {
    if gs == [] then multiset{} else Bag(gs[..|gs| - 1]) + multiset(gs[|gs| - 1].sessions)
  }

  /** Every session is there once, and ids tell sessions apart. */
  predicate Unique(bag: multiset<Session>) {
    (forall s :: s in bag ==> bag[s] == 1) && (forall s, t :: s in bag && t in bag && s.id == t.id ==> s == t)
  }

  predicate DistinctGroups(gs: seq<Group>) {
    forall i, j :: 0 <= i < j < |gs| ==> gs[i].id != gs[j].id
  }

  /** The group has sessions and its focused id names one of them. */
  predicate InOrder(g: Group) {
    exists i :: 0 <= i < |g.sessions| && g.sessions[i].id == g.focused
  }

  /** Group ids are distinct and every group is in order. */
  predicate Orderly(gs: seq<Group>) {
    DistinctGroups(gs) && forall i :: 0 <= i < |gs| ==> InOrder(gs[i])
  }

  predicate Tidy(gs: seq<Group>) {
    Orderly(gs) && Unique(Bag(gs))
  }

  // ----- Groups one at a time -----

  lemma Front<T>(a: seq<T>, b: seq<T>)
    requires b != []
    ensures (a + b)[..|a + b| - 1] == a + b[..|b| - 1] && (a + b)[|a + b| - 1] == b[|b| - 1]
  {
  }

  lemma {:induction false} BagAppend(a: seq<Group>, b: seq<Group>)
    ensures Bag(a + b) == Bag(a) + Bag(b)
    decreases |b|
  {
    if b == [] {
      assert a + b == a;
    } else {
      BagAppend(a, b[..|b| - 1]);
      Front(a, b);
    }
  }

  lemma BagOne(g: Group)
    ensures Bag([g]) == multiset(g.sessions)
  {
    assert [g][..0] == [];
  }

  lemma BagAround(a: seq<Group>, g: Group, b: seq<Group>)
    ensures Bag(a + [g] + b) == Bag(a) + multiset(g.sessions) + Bag(b)
  {
    BagAppend(a + [g], b);
    BagAppend(a, [g]);
    BagOne(g);
  }

  lemma Split(gs: seq<Group>, k: nat)
    requires k < |gs|
    ensures gs == gs[..k] + [gs[k]] + gs[k + 1..]
  {
  }

  predicate NoGroup(gs: seq<Group>, id: GroupId) {
    forall i :: 0 <= i < |gs| ==> gs[i].id != id
  }

  lemma {:induction false} FoundGroup(gs: seq<Group>, id: GroupId)
    ensures GroupIndex(gs, id) < 0 <==> NoGroup(gs, id)
  {
    if gs != [] && gs[0].id != id {
      FoundGroup(gs[1..], id);
      if GroupIndex(gs, id) < 0 {
        forall i | 0 <= i < |gs|
          ensures gs[i].id != id
        {
          assert i > 0 ==> gs[i] == gs[1..][i - 1];
        }
      }
    }
  }

  lemma MapAt(gs: seq<Group>, k: nat, f: Group -> Group)
    requires DistinctGroups(gs) && k < |gs|
    ensures MapGroup(gs, gs[k].id, f) == gs[k := f(gs[k])]
  {
  }

  lemma Updated(gs: seq<Group>, k: nat, g: Group)
    requires k < |gs|
    ensures gs[k := g] == gs[..k] + [g] + gs[k + 1..]
  {
  }

  lemma MapNowhere(gs: seq<Group>, id: GroupId, f: Group -> Group)
    requires NoGroup(gs, id)
    ensures MapGroup(gs, id, f) == gs
  {
  }

  /** Mapping the group with an id replaces the one group that has it. */
  lemma {:induction false} MapReplaces(gs: seq<Group>, id: GroupId, f: Group -> Group)
    requires DistinctGroups(gs)
    ensures var k := GroupIndex(gs, id);
            MapGroup(gs, id, f) == if k < 0 then gs else gs[..k] + [f(gs[k])] + gs[k + 1..]
  {
    var k := GroupIndex(gs, id);
    if k < 0 {
      FoundGroup(gs, id);
      MapNowhere(gs, id, f);
    } else {
      MapAt(gs, k, f);
      Updated(gs, k, f(gs[k]));
    }
  }

  lemma {:induction false} WithoutNone(gs: seq<Group>, id: GroupId)
    requires NoGroup(gs, id)
    ensures WithoutGroup(gs, id) == gs
  {
    if gs != [] {
      WithoutNone(gs[1..], id);
    }
  }

  lemma {:induction false} WithoutRemoves(gs: seq<Group>, id: GroupId)
    requires DistinctGroups(gs) && GroupIndex(gs, id) >= 0
    ensures var k := GroupIndex(gs, id); WithoutGroup(gs, id) == gs[..k] + gs[k + 1..]
  {
    if gs[0].id == id {
      WithoutNone(gs[1..], id);
    } else {
      WithoutRemoves(gs[1..], id);
      var k := GroupIndex(gs[1..], id);
      assert gs[..k + 1] + gs[k + 2..] == [gs[0]] + (gs[1..][..k] + gs[1..][k + 1..]);
    }
  }

  /** Replacing one group exchanges its sessions and keeps the rest. */
  lemma {:induction false} MapBag(gs: seq<Group>, id: GroupId, f: Group -> Group)
    requires DistinctGroups(gs) && GroupIndex(gs, id) >= 0
    ensures var k := GroupIndex(gs, id);
            Bag(MapGroup(gs, id, f)) + multiset(gs[k].sessions) == Bag(gs) + multiset(f(gs[k]).sessions)
  {
    var k := GroupIndex(gs, id);
    MapReplaces(gs, id, f);
    Split(gs, k);
    BagAround(gs[..k], gs[k], gs[k + 1..]);
    BagAround(gs[..k], f(gs[k]), gs[k + 1..]);
  }

  lemma Cancel(a: multiset<Session>, b: multiset<Session>, x: multiset<Session>)
    requires a + x == b + x
    ensures a == b
  {
    forall s
      ensures a[s] == b[s]
    {
      assert (a + x)[s] == (b + x)[s];
    }
  }

  lemma {:induction false} MapSame(gs: seq<Group>, id: GroupId, f: Group -> Group)
    requires DistinctGroups(gs) && GroupIndex(gs, id) >= 0
    requires var g := gs[GroupIndex(gs, id)]; multiset(f(g).sessions) == multiset(g.sessions)
    ensures Bag(MapGroup(gs, id, f)) == Bag(gs)
  {
    MapBag(gs, id, f);
    Cancel(Bag(MapGroup(gs, id, f)), Bag(gs), multiset(gs[GroupIndex(gs, id)].sessions));
  }

  lemma {:induction false} MapMore(gs: seq<Group>, id: GroupId, f: Group -> Group, s: Session)
    requires DistinctGroups(gs) && GroupIndex(gs, id) >= 0
    requires var g := gs[GroupIndex(gs, id)]; multiset(f(g).sessions) == multiset(g.sessions) + multiset{s}
    ensures Bag(MapGroup(gs, id, f)) == Bag(gs) + multiset{s}
  {
    MapBag(gs, id, f);
    var x := multiset(gs[GroupIndex(gs, id)].sessions);
    assert Bag(gs) + (x + multiset{s}) == (Bag(gs) + multiset{s}) + x;
    Cancel(Bag(MapGroup(gs, id, f)), Bag(gs) + multiset{s}, x);
  }

  lemma {:induction false} MapLess(gs: seq<Group>, id: GroupId, f: Group -> Group, s: Session)
    requires DistinctGroups(gs) && GroupIndex(gs, id) >= 0
    requires var g := gs[GroupIndex(gs, id)]; multiset(f(g).sessions) + multiset{s} == multiset(g.sessions)
    ensures Bag(MapGroup(gs, id, f)) + multiset{s} == Bag(gs)
  {
    MapBag(gs, id, f);
    var y := multiset(f(gs[GroupIndex(gs, id)]).sessions);
    assert Bag(MapGroup(gs, id, f)) + (y + multiset{s}) == (Bag(MapGroup(gs, id, f)) + multiset{s}) + y;
    Cancel(Bag(MapGroup(gs, id, f)) + multiset{s}, Bag(gs), y);
  }

  lemma {:induction false} RemoveBag(gs: seq<Group>, id: GroupId)
    requires DistinctGroups(gs) && GroupIndex(gs, id) >= 0
    ensures Bag(WithoutGroup(gs, id)) + multiset(gs[GroupIndex(gs, id)].sessions) == Bag(gs)
  {
    var k := GroupIndex(gs, id);
    WithoutRemoves(gs, id);
    Split(gs, k);
    BagAround(gs[..k], gs[k], gs[k + 1..]);
    BagAppend(gs[..k], gs[k + 1..]);
  }

  lemma InsertBag(gs: seq<Group>, pos: nat, g: Group)
    ensures Bag(InsertAt(gs, pos, g)) == Bag(gs) + multiset(g.sessions)
  {
    var p := if pos <= |gs| then pos else |gs|;
    BagAround(gs[..p], g, gs[p..]);
    BagAppend(gs[..p], gs[p..]);
    TakeDrop(gs, p);
  }

  lemma {:induction false} MapOrderly(gs: seq<Group>, id: GroupId, f: Group -> Group)
    requires Orderly(gs)
    requires var k := GroupIndex(gs, id); k >= 0 ==> f(gs[k]).id == id && InOrder(f(gs[k]))
    ensures Orderly(MapGroup(gs, id, f))
  {
    var m := MapGroup(gs, id, f);
    MapReplaces(gs, id, f);
    assert forall i :: 0 <= i < |gs| ==> m[i].id == gs[i].id;
  }

  lemma {:induction false} SameIndex(gs: seq<Group>, hs: seq<Group>, id: GroupId)
    requires |gs| == |hs| && forall i :: 0 <= i < |gs| ==> gs[i].id == hs[i].id
    ensures GroupIndex(gs, id) == GroupIndex(hs, id)
  {
    if gs != [] {
      SameIndex(gs[1..], hs[1..], id);
    }
  }

  lemma DroppedOrderly(gs: seq<Group>, k: nat)
    requires Orderly(gs) && k < |gs|
    ensures Orderly(gs[..k] + gs[k + 1..])
    ensures NoGroup(gs[..k] + gs[k + 1..], gs[k].id)
  {
    var out := gs[..k] + gs[k + 1..];
    forall i | 0 <= i < |out|
      ensures out[i] == gs[if i < k then i else i + 1] && out[i].id != gs[k].id
    {
    }
  }

  lemma {:induction false} RemoveOrderly(gs: seq<Group>, id: GroupId)
    requires Orderly(gs) && GroupIndex(gs, id) >= 0
    ensures Orderly(WithoutGroup(gs, id)) && GroupIndex(WithoutGroup(gs, id), id) < 0
  {
    WithoutRemoves(gs, id);
    DroppedOrderly(gs, GroupIndex(gs, id));
    FoundGroup(WithoutGroup(gs, id), id);
  }

  lemma InsertOrderly(gs: seq<Group>, pos: nat, g: Group)
    requires Orderly(gs) && InOrder(g) && GroupIndex(gs, g.id) < 0
    ensures Orderly(InsertAt(gs, pos, g))
  {
    FoundGroup(gs, g.id);
  }

  // ----- Sessions of one group -----

  predicate DistinctIds(ss: seq<Session>) {
    forall i, j :: 0 <= i < j < |ss| ==> ss[i].id != ss[j].id
  }

  lemma {:induction false} InBag(gs: seq<Group>, k: nat)
    requires k < |gs|
    ensures multiset(gs[k].sessions) <= Bag(gs)
  {
    Split(gs, k);
    BagAround(gs[..k], gs[k], gs[k + 1..]);
  }

  lemma SessionsDistinct(gs: seq<Group>, k: nat)
    requires Unique(Bag(gs)) && k < |gs|
    ensures DistinctIds(gs[k].sessions)
  {
    InBag(gs, k);
    var ss := gs[k].sessions;
    forall i, j | 0 <= i < j < |ss|
      ensures ss[i].id != ss[j].id
    {
      TwoPlaces(ss, i, j);
      assert ss[i] in Bag(gs) && ss[j] in Bag(gs);
    }
  }

  lemma TwoPlaces(ss: seq<Session>, i: nat, j: nat)
    requires i < j < |ss|
    ensures ss[i] == ss[j] ==> multiset(ss)[ss[i]] >= 2
  {
    assert ss == ss[..j] + [ss[j]] + ss[j + 1..];
    assert ss[i] in multiset(ss[..j]);
  }

  lemma {:induction false} WithoutAbsent(ss: seq<Session>, id: SessionId)
    requires NoSession(ss, id)
    ensures Without(ss, id) == ss
  {
    if ss != [] {
      WithoutAbsent(ss[1..], id);
    }
  }

  lemma {:induction false} WithoutOne(ss: seq<Session>, id: SessionId)
    requires DistinctIds(ss) && IndexOf(ss, id) >= 0
    ensures var k := IndexOf(ss, id); Without(ss, id) == ss[..k] + ss[k + 1..]
  {
    if ss[0].id == id {
      WithoutAbsent(ss[1..], id);
    } else {
      WithoutOne(ss[1..], id);
      var k := IndexOf(ss[1..], id);
      assert ss[..k + 1] + ss[k + 2..] == [ss[0]] + (ss[1..][..k] + ss[1..][k + 1..]);
    }
  }

  lemma WithoutBag(ss: seq<Session>, id: SessionId)
    requires DistinctIds(ss) && IndexOf(ss, id) >= 0
    ensures multiset(Without(ss, id)) + multiset{ss[IndexOf(ss, id)]} == multiset(ss)
    ensures |Without(ss, id)| == |ss| - 1
  {
    WithoutOne(ss, id);
    TakenOut(ss, IndexOf(ss, id));
  }

  lemma Around(a: seq<Session>, s: Session, b: seq<Session>)
    ensures multiset(a + [s] + b) == multiset(a + b) + multiset{s}
  {
  }

  lemma TakenOut(ss: seq<Session>, k: nat)
    requires k < |ss|
    ensures multiset(ss[..k] + ss[k + 1..]) + multiset{ss[k]} == multiset(ss)
  {
    Around(ss[..k], ss[k], ss[k + 1..]);
    assert ss == ss[..k] + [ss[k]] + ss[k + 1..];
  }

  lemma {:induction false} Absent(ss: seq<Session>, id: SessionId)
    requires IndexOf(ss, id) < 0
    ensures NoSession(ss, id)
  {
    if ss != [] {
      Absent(ss[1..], id);
    }
  }

  lemma SwapBag(ss: seq<Session>, i: nat, j: nat)
    requires i < |ss| && j < |ss|
    ensures multiset(Swapped(ss, i, j)) == multiset(ss)
  {
  }

  lemma MoveBag(ss: seq<Session>, i: nat, j: nat)
    requires i < |ss| && j < |ss|
    ensures multiset(Moved(ss, i, j)) == multiset(ss)
  {
    var rest := ss[..i] + ss[i + 1..];
    TakenOut(ss, i);
    Around(rest[..j], ss[i], rest[j..]);
    TakeDrop(rest, j);
  }

  /** The same sessions in another order: the focus still names one of them. */
  lemma RearrangedInOrder(g: Group, h: Group)
    requires InOrder(g) && multiset(g.sessions) == multiset(h.sessions) && g.focused == h.focused
    ensures InOrder(h)
  {
    var i :| 0 <= i < |g.sessions| && g.sessions[i].id == g.focused;
    assert g.sessions[i] in multiset(h.sessions);
  }

  // ----- Runs -----

  datatype Event =
    | Add(session: Session)
    | Close(group: GroupId, closed: SessionId)
    | Rearrange(group: GroupId, layout: Layout)
    | Merge(from: GroupId, dragged: SessionId, to: GroupId)
    | Drop(from: GroupId, dragged: SessionId, pos: nat, newId: GroupId)
    | Move(group: GroupId, dragged: SessionId, target: SessionId)
    | Focus(group: GroupId, clicked: SessionId)

  predicate Holds(g: Group, sid: SessionId) {
    IndexOf(g.sessions, sid) >= 0
  }

  /** New ids are new, and only a tab that is shown can be clicked. */
  predicate Possible(st: State, e: Event) {
    match e
    case Add(s) => forall t :: t in Bag(st.groups) ==> t.id != s.id
    case Drop(from, dragged, pos, newId) => GroupIndex(st.groups, newId) < 0
    case Focus(gid, sid) => var k := GroupIndex(st.groups, gid); k >= 0 && Holds(st.groups[k], sid)
    case _ => true
  }

  function Apply(st: State, e: Event): State {
    match e
    case Add(s) => AddSession(st, s)
    case Close(gid, sid) => CloseSession(st, gid, sid)
    case Rearrange(gid, layout) => ChangeLayout(st, gid, layout)
    case Merge(from, sid, to) => ExecuteMerge(st, from, sid, to)
    case Drop(from, sid, pos, newId) => ExecuteDropToZone(st, from, sid, pos, newId)
    case Move(gid, sid, target) => Reorder(st, gid, sid, target)
    case Focus(gid, sid) => Click(st, gid, sid)
  }

  function Step(st: State, e: Event): State {
    if Possible(st, e) then Apply(st, e) else st
  }

  function Run(st: State, es: seq<Event>): State {
    if es == [] then st else Step(Run(st, es[..|es| - 1]), es[|es| - 1])
  }

  /** The page opened without a machine, or with the one session of its route. */
  function Opening(session: Option<Session>, id: GroupId): State {
    if session == None then State([], None)
    else State([Group(id, Single, [session.value], session.value.id)], Some(id))
  }

  // ----- Each update -----

  predicate ActiveExists(st: State) {
    st.active.Some? && GroupIndex(st.groups, st.active.value) >= 0
  }

  predicate New(gs: seq<Group>, s: Session) {
    forall t :: t in Bag(gs) ==> t.id != s.id
  }

  lemma OneMore(bag: multiset<Session>, s: Session)
    requires Unique(bag) && forall t :: t in bag ==> t.id != s.id
    ensures Unique(bag + multiset{s})
  {
  }

  lemma Fewer(bag: multiset<Session>, more: multiset<Session>)
    requires Unique(more) && bag <= more
    ensures Unique(bag)
  {
  }

  lemma AddedInOrder(g: Group, s: Session)
    ensures InOrder(Adding(s)(g)) && Adding(s)(g).id == g.id
    ensures multiset(Adding(s)(g).sessions) == multiset(g.sessions) + multiset{s}
  {
    assert (g.sessions + [s])[|g.sessions|] == s;
  }

  lemma {:induction false} GroupGains(gs: seq<Group>, id: GroupId, s: Session)
    requires Tidy(gs) && New(gs, s) && GroupIndex(gs, id) >= 0
    ensures Tidy(MapGroup(gs, id, Adding(s))) && Bag(MapGroup(gs, id, Adding(s))) == Bag(gs) + multiset{s}
  {
    AddedInOrder(gs[GroupIndex(gs, id)], s);
    MapOrderly(gs, id, Adding(s));
    MapMore(gs, id, Adding(s), s);
    OneMore(Bag(gs), s);
  }

  lemma AddKeeps(st: State, s: Session)
    requires Tidy(st.groups) && New(st.groups, s)
    ensures Tidy(AddSession(st, s).groups)
    ensures Bag(AddSession(st, s).groups) == Bag(st.groups) + if ActiveExists(st) then multiset{s} else multiset{}
  {
    if ActiveExists(st) {
      GroupGains(st.groups, st.active.value, s);
    } else if st.active.Some? {
      MapReplaces(st.groups, st.active.value, Adding(s));
      assert AddSession(st, s).groups == st.groups;
    }
  }

  lemma NonEmpty(gs: seq<Group>)
    requires Orderly(gs) && gs != []
    ensures |Bag(gs)| > 0
  {
    assert InOrder(gs[|gs| - 1]);
    assert |multiset(gs[|gs| - 1].sessions)| > 0;
  }

  /** Closing takes effect when the group holds the session and it is not the last one on the page. */
  predicate Closes(st: State, gid: GroupId, sid: SessionId) {
    var k := GroupIndex(st.groups, gid);
    k >= 0 && Holds(st.groups[k], sid) && |Bag(st.groups)| > 1
  }

  function Lost(st: State, gid: GroupId, sid: SessionId): multiset<Session> {
    if Closes(st, gid, sid) then
      var ss := st.groups[GroupIndex(st.groups, gid)].sessions;
      multiset{ss[IndexOf(ss, sid)]}
    else multiset{}
  }

  lemma FocusMoves(g: Group, sid: SessionId)
    requires g.focused == sid && Without(g.sessions, sid) != []
    ensures InOrder(Keeping(Without(g.sessions, sid), FocusAfterClose(g, sid))(g))
  {
    var remaining := Without(g.sessions, sid);
    var k := IndexOf(g.sessions, sid) - 1;
    var i := if k < 0 then 0 else k;
    assert remaining[if i < |remaining| then i else 0].id == FocusAfterClose(g, sid);
  }

  lemma FocusStays(g: Group, sid: SessionId)
    requires InOrder(g) && DistinctIds(g.sessions) && g.focused != sid && Holds(g, sid)
    ensures InOrder(Keeping(Without(g.sessions, sid), g.focused)(g))
  {
    var remaining := Without(g.sessions, sid);
    var i :| 0 <= i < |g.sessions| && g.sessions[i].id == g.focused;
    var k := IndexOf(g.sessions, sid);
    WithoutOne(g.sessions, sid);
    assert remaining[if i < k then i else i - 1].id == g.focused;
  }

  lemma GroupLoses(gs: seq<Group>, id: GroupId, sid: SessionId, focused: SessionId)
    requires Tidy(gs) && GroupIndex(gs, id) >= 0
    requires var g := gs[GroupIndex(gs, id)];
             Holds(g, sid) && InOrder(Keeping(Without(g.sessions, sid), focused)(g))
    ensures var g := gs[GroupIndex(gs, id)];
            var after := MapGroup(gs, id, Keeping(Without(g.sessions, sid), focused));
            Tidy(after) && Bag(after) + multiset{g.sessions[IndexOf(g.sessions, sid)]} == Bag(gs)
  {
    var g := gs[GroupIndex(gs, id)];
    var f := Keeping(Without(g.sessions, sid), focused);
    SessionsDistinct(gs, GroupIndex(gs, id));
    WithoutBag(g.sessions, sid);
    MapOrderly(gs, id, f);
    MapLess(gs, id, f, g.sessions[IndexOf(g.sessions, sid)]);
    Fewer(Bag(MapGroup(gs, id, f)), Bag(gs));
  }

  lemma GroupRelaidOut(gs: seq<Group>, id: GroupId, sid: SessionId, focused: SessionId)
    requires Tidy(gs) && GroupIndex(gs, id) >= 0
    requires var g := gs[GroupIndex(gs, id)]; !Holds(g, sid) && focused == g.focused
    ensures var g := gs[GroupIndex(gs, id)];
            var after := MapGroup(gs, id, Keeping(Without(g.sessions, sid), focused));
            Tidy(after) && Bag(after) == Bag(gs)
  {
    var g := gs[GroupIndex(gs, id)];
    var f := Keeping(Without(g.sessions, sid), focused);
    Absent(g.sessions, sid);
    WithoutAbsent(g.sessions, sid);
    RearrangedInOrder(g, f(g));
    MapOrderly(gs, id, f);
    MapSame(gs, id, f);
  }

  lemma CloseKeeps(st: State, gid: GroupId, sid: SessionId)
    requires Tidy(st.groups)
    ensures Tidy(CloseSession(st, gid, sid).groups)
    ensures Bag(CloseSession(st, gid, sid).groups) + Lost(st, gid, sid) == Bag(st.groups)
  {
    var k := GroupIndex(st.groups, gid);
    if k >= 0 {
      var g := st.groups[k];
      var remaining := Without(g.sessions, sid);
      SessionsDistinct(st.groups, k);
      assert InOrder(g);
      if !Holds(g, sid) {
        Absent(g.sessions, sid);
        WithoutAbsent(g.sessions, sid);
        GroupRelaidOut(st.groups, gid, sid, g.focused);
      } else if remaining == [] {
        WithoutBag(g.sessions, sid);
        CloseLastOfGroup(st, gid, sid);
      } else {
        if g.focused == sid {
          FocusMoves(g, sid);
        } else {
          FocusStays(g, sid);
        }
        GroupLoses(st.groups, gid, sid, FocusAfterClose(g, sid));
        MoreThanOne(st.groups, k, sid);
      }
    }
  }

  lemma {:induction false} MoreThanOne(gs: seq<Group>, k: nat, sid: SessionId)
    requires k < |gs| && DistinctIds(gs[k].sessions) && Holds(gs[k], sid) && Without(gs[k].sessions, sid) != []
    ensures |Bag(gs)| > 1
  {
    WithoutBag(gs[k].sessions, sid);
    InBag(gs, k);
    assert |multiset(gs[k].sessions)| == |gs[k].sessions|;
    assert Bag(gs) == multiset(gs[k].sessions) + (Bag(gs) - multiset(gs[k].sessions));
  }

  lemma OneMoreThan(a: multiset<Session>, s: Session)
    ensures |a + multiset{s}| == |a| + 1
  {
  }

  /** Removing a group of one session leaves one session less; the rest is empty only if nothing is left. */
  lemma RemoveLone(gs: seq<Group>, gid: GroupId, s: Session)
    requires Tidy(gs) && GroupIndex(gs, gid) >= 0
    requires multiset(gs[GroupIndex(gs, gid)].sessions) == multiset{s}
    ensures var others := WithoutGroup(gs, gid);
            Tidy(others) && Bag(others) + multiset{s} == Bag(gs) && (others == [] <==> |Bag(gs)| <= 1)
  {
    var others := WithoutGroup(gs, gid);
    RemoveOrderly(gs, gid);
    RemoveBag(gs, gid);
    OneMoreThan(Bag(others), s);
    Fewer(Bag(others), Bag(gs));
    if others != [] {
      NonEmpty(others);
    }
  }

  lemma {:induction false} CloseLastOfGroup(st: State, gid: GroupId, sid: SessionId)
    requires Tidy(st.groups)
    requires var k := GroupIndex(st.groups, gid);
             k >= 0 && Holds(st.groups[k], sid) && Without(st.groups[k].sessions, sid) == []
             && multiset(st.groups[k].sessions) == multiset{st.groups[k].sessions[IndexOf(st.groups[k].sessions, sid)]}
    ensures Tidy(CloseSession(st, gid, sid).groups)
    ensures Bag(CloseSession(st, gid, sid).groups) + Lost(st, gid, sid) == Bag(st.groups)
  {
    var ss := st.groups[GroupIndex(st.groups, gid)].sessions;
    RemoveLone(st.groups, gid, ss[IndexOf(ss, sid)]);
  }

  lemma LayoutKeeps(st: State, gid: GroupId, layout: Layout)
    requires Tidy(st.groups)
    ensures Tidy(ChangeLayout(st, gid, layout).groups)
    ensures Bag(ChangeLayout(st, gid, layout).groups) == Bag(st.groups)
  {
    var k := GroupIndex(st.groups, gid);
    if k >= 0 {
      var g := st.groups[k];
      var i := IndexOf(g.sessions, g.focused);
      var ss := if layout != Single && i >= Slots(layout) then Swapped(g.sessions, 0, i) else g.sessions;
      if i >= 0 {
        SwapBag(g.sessions, 0, i);
      }
      ArrangeKeeps(st.groups, gid, ss, layout);
    }
  }

  lemma {:induction false} ArrangeKeeps(gs: seq<Group>, gid: GroupId, ss: seq<Session>, layout: Layout)
    requires Tidy(gs) && GroupIndex(gs, gid) >= 0
    requires multiset(ss) == multiset(gs[GroupIndex(gs, gid)].sessions)
    ensures Tidy(MapGroup(gs, gid, Arranged(ss, layout))) && Bag(MapGroup(gs, gid, Arranged(ss, layout))) == Bag(gs)
  {
    var g := gs[GroupIndex(gs, gid)];
    RearrangedInOrder(g, Arranged(ss, layout)(g));
    MapSame(gs, gid, Arranged(ss, layout));
    MapOrderly(gs, gid, Arranged(ss, layout));
  }

  lemma ReorderKeeps(st: State, gid: GroupId, sid: SessionId, target: SessionId)
    requires Tidy(st.groups)
    ensures Tidy(Reorder(st, gid, sid, target).groups)
    ensures Bag(Reorder(st, gid, sid, target).groups) == Bag(st.groups)
  {
    var k := GroupIndex(st.groups, gid);
    if k >= 0 {
      var ss := st.groups[k].sessions;
      var i, j := IndexOf(ss, sid), IndexOf(ss, target);
      if i >= 0 && j >= 0 {
        MoveBag(ss, i, j);
        ArrangeKeeps(st.groups, gid, Moved(ss, i, j), st.groups[k].layout);
      }
    }
  }

  /** The list without the dragged session: its group shrinks, or disappears if it was alone. */
  function Extracted(gs: seq<Group>, from: GroupId, sid: SessionId): seq<Group> {
    var k := GroupIndex(gs, from);
    if k < 0 then gs
    else
      var left := Without(gs[k].sessions, sid);
      if left == [] then WithoutGroup(gs, from) else MapGroup(gs, from, Keeping(left, HeadFocus(left)))
  }

  lemma ExtractKeeps(gs: seq<Group>, from: GroupId, sid: SessionId)
    requires Tidy(gs) && GroupIndex(gs, from) >= 0 && Holds(gs[GroupIndex(gs, from)], sid)
    ensures var ss := gs[GroupIndex(gs, from)].sessions;
            Bag(Extracted(gs, from, sid)) + multiset{ss[IndexOf(ss, sid)]} == Bag(gs)
    ensures Tidy(Extracted(gs, from, sid))
  {
    var k := GroupIndex(gs, from);
    var left := Without(gs[k].sessions, sid);
    SessionsDistinct(gs, k);
    WithoutBag(gs[k].sessions, sid);
    if left == [] {
      RemoveOrderly(gs, from);
      RemoveBag(gs, from);
      Fewer(Bag(WithoutGroup(gs, from)), Bag(gs));
    } else {
      assert left[0].id == HeadFocus(left);
      GroupLoses(gs, from, sid, HeadFocus(left));
    }
  }

  lemma GoneIsNew(gs: seq<Group>, kept: seq<Group>, s: Session)
    requires Unique(Bag(gs)) && Bag(kept) + multiset{s} == Bag(gs)
    ensures New(kept, s)
  {
    assert s in Bag(gs) && Bag(kept)[s] + 1 == Bag(gs)[s];
    forall t | t in Bag(kept)
      ensures t.id != s.id
    {
      assert t in Bag(gs);
    }
  }

  lemma {:induction false} OtherGroupsStay(gs: seq<Group>, from: GroupId, sid: SessionId, to: GroupId)
    requires Orderly(gs) && from != to && GroupIndex(gs, from) >= 0
    ensures GroupIndex(Extracted(gs, from, sid), to) >= 0 <==> GroupIndex(gs, to) >= 0
  {
    var left := Without(gs[GroupIndex(gs, from)].sessions, sid);
    if left == [] {
      OthersStay(gs, from, to);
    } else {
      SameIndexAfterMap(gs, from, Keeping(left, HeadFocus(left)), to);
    }
  }

  lemma {:induction false} OthersStay(gs: seq<Group>, from: GroupId, to: GroupId)
    requires from != to
    ensures GroupIndex(WithoutGroup(gs, from), to) >= 0 <==> GroupIndex(gs, to) >= 0
  {
    if gs != [] {
      OthersStay(gs[1..], from, to);
      HeadTail([gs[0]], WithoutGroup(gs[1..], from));
      assert [gs[0]][1..] + WithoutGroup(gs[1..], from) == WithoutGroup(gs[1..], from);
    }
  }

  lemma MergeKeeps(st: State, from: GroupId, sid: SessionId, to: GroupId)
    requires Tidy(st.groups)
    ensures Tidy(ExecuteMerge(st, from, sid, to).groups)
    ensures Bag(ExecuteMerge(st, from, sid, to).groups) == Bag(st.groups)
  {
    var f, t := GroupIndex(st.groups, from), GroupIndex(st.groups, to);
    if from != to && f >= 0 && t >= 0 && Holds(st.groups[f], sid) {
      var s := st.groups[f].sessions[IndexOf(st.groups[f].sessions, sid)];
      var kept := Extracted(st.groups, from, sid);
      ExtractKeeps(st.groups, from, sid);
      OtherGroupsStay(st.groups, from, sid, to);
      GoneIsNew(st.groups, kept, s);
      GroupGains(kept, to, s);
    }
  }

  lemma DropKeeps(st: State, from: GroupId, sid: SessionId, pos: nat, newId: GroupId)
    requires Tidy(st.groups) && GroupIndex(st.groups, newId) < 0
    ensures Tidy(ExecuteDropToZone(st, from, sid, pos, newId).groups)
    ensures Bag(ExecuteDropToZone(st, from, sid, pos, newId).groups) == Bag(st.groups)
  {
    var f := GroupIndex(st.groups, from);
    if f >= 0 && Holds(st.groups[f], sid) {
      if Without(st.groups[f].sessions, sid) == [] {
        DropSolo(st.groups, from, sid, pos);
      } else {
        ExtractKeeps(st.groups, from, sid);
        DropPart(st.groups, from, sid, pos, newId);
      }
    }
  }

  lemma DropSolo(gs: seq<Group>, from: GroupId, sid: SessionId, pos: nat)
    requires Tidy(gs) && GroupIndex(gs, from) >= 0
    requires Without(gs[GroupIndex(gs, from)].sessions, sid) == []
    ensures var after := InsertAt(WithoutGroup(gs, from), pos, gs[GroupIndex(gs, from)].(layout := Single));
            Tidy(after) && Bag(after) == Bag(gs)
  {
    var g := gs[GroupIndex(gs, from)];
    var moved := g.(layout := Single);
    assert InOrder(g);
    RearrangedInOrder(g, moved);
    RemoveOrderly(gs, from);
    RemoveBag(gs, from);
    InsertOrderly(WithoutGroup(gs, from), pos, moved);
    InsertBag(WithoutGroup(gs, from), pos, moved);
  }

  lemma DropPart(gs: seq<Group>, from: GroupId, sid: SessionId, pos: nat, newId: GroupId)
    requires Tidy(gs) && GroupIndex(gs, from) >= 0 && GroupIndex(gs, newId) < 0
    requires var g := gs[GroupIndex(gs, from)];
             Holds(g, sid) && Without(g.sessions, sid) != []
             && Bag(Extracted(gs, from, sid)) + multiset{g.sessions[IndexOf(g.sessions, sid)]} == Bag(gs)
             && Tidy(Extracted(gs, from, sid))
    ensures var g := gs[GroupIndex(gs, from)];
            var after := InsertAt(Extracted(gs, from, sid), pos, Alone(g, sid, newId));
            Tidy(after) && Bag(after) == Bag(gs)
  {
    var g := gs[GroupIndex(gs, from)];
    var kept := Extracted(gs, from, sid);
    assert Alone(g, sid, newId).sessions[0].id == sid;
    OtherGroupsStay(gs, from, sid, newId);
    InsertOrderly(kept, pos, Alone(g, sid, newId));
    InsertBag(kept, pos, Alone(g, sid, newId));
  }

  lemma FocusKeeps(st: State, gid: GroupId, sid: SessionId)
    requires Tidy(st.groups) && GroupIndex(st.groups, gid) >= 0 && Holds(st.groups[GroupIndex(st.groups, gid)], sid)
    ensures Tidy(Click(st, gid, sid).groups) && Bag(Click(st, gid, sid).groups) == Bag(st.groups)
  {
    var g := st.groups[GroupIndex(st.groups, gid)];
    assert g.sessions[IndexOf(g.sessions, sid)].id == sid;
    MapOrderly(st.groups, gid, Focusing(sid));
    MapSame(st.groups, gid, Focusing(sid));
  }

  // ----- Every run -----

  function Gained(st: State, e: Event): multiset<Session> {
    if e.Add? && ActiveExists(st) then multiset{e.session} else multiset{}
  }

  function Released(st: State, e: Event): multiset<Session> {
    if e.Close? then Lost(st, e.group, e.closed) else multiset{}
  }

  /**
    Sessions are conserved: adding adds the one session when the active group exists, closing removes the
    one session unless it is the last on the page, and every other update keeps the multiset of sessions.
   */
  lemma StepConserves(st: State, e: Event)
    requires Tidy(st.groups) && Possible(st, e)
    ensures Tidy(Step(st, e).groups)
    ensures Bag(Step(st, e).groups) + Released(st, e) == Bag(st.groups) + Gained(st, e)
  {
    match e
    case Add(s) => AddKeeps(st, s);
    case Close(gid, sid) => CloseKeeps(st, gid, sid);
    case Rearrange(gid, layout) => LayoutKeeps(st, gid, layout);
    case Merge(from, sid, to) => MergeKeeps(st, from, sid, to);
    case Drop(from, sid, pos, newId) => DropKeeps(st, from, sid, pos, newId);
    case Move(gid, sid, target) => ReorderKeeps(st, gid, sid, target);
    case Focus(gid, sid) => FocusKeeps(st, gid, sid);
  }

  lemma OpeningTidy(session: Option<Session>, id: GroupId)
    ensures Tidy(Opening(session, id).groups)
  {
    var gs := Opening(session, id).groups;
    if session.Some? {
      BagOne(gs[0]);
      assert gs[0].sessions[0].id == gs[0].focused;
    }
  }

  lemma {:induction false} RunTidy(session: Option<Session>, id: GroupId, es: seq<Event>)
    ensures Tidy(Run(Opening(session, id), es).groups)
  {
    if es == [] {
      OpeningTidy(session, id);
    } else {
      RunTidy(session, id, es[..|es| - 1]);
      var st := Run(Opening(session, id), es[..|es| - 1]);
      if Possible(st, es[|es| - 1]) {
        StepConserves(st, es[|es| - 1]);
      }
    }
  }

  /** The session is at place `i` of group `k`. */
  predicate Sits(gs: seq<Group>, sid: SessionId, k: int, i: int) {
    0 <= k < |gs| && 0 <= i < |gs[k].sessions| && gs[k].sessions[i].id == sid
  }

  /**
    After any run every session is in exactly one group and one place of it, no group is empty, the
    focused id of each group names one of its members, and group ids are distinct.
   */
  lemma {:induction false} TabsStayTidy(session: Option<Session>, id: GroupId, es: seq<Event>,
                     sid: SessionId, k: int, i: int, k': int, i': int)
    ensures var gs := Run(Opening(session, id), es).groups;
            && (Sits(gs, sid, k, i) && Sits(gs, sid, k', i') ==> k == k' && i == i')
            && (0 <= k < |gs| ==> gs[k].sessions != [] && exists j :: Sits(gs, gs[k].focused, k, j))
            && (0 <= k < |gs| && 0 <= k' < |gs| && gs[k].id == gs[k'].id ==> k == k')
  {
    var gs := Run(Opening(session, id), es).groups;
    RunTidy(session, id, es);
    if 0 <= k < |gs| {
      assert InOrder(gs[k]);
      var j :| 0 <= j < |gs[k].sessions| && gs[k].sessions[j].id == gs[k].focused;
      assert Sits(gs, gs[k].focused, k, j);
    }
    if Sits(gs, sid, k, i) && Sits(gs, sid, k', i') {
      if k < k' {
        OneGroup(gs, k, i, k', i');
      } else if k' < k {
        OneGroup(gs, k', i', k, i);
      } else {
        SessionsDistinct(gs, k);
      }
    }
  }

  lemma {:induction false} OneGroup(gs: seq<Group>, k: nat, i: nat, k': nat, i': nat)
    requires Unique(Bag(gs)) && k < k' < |gs| && i < |gs[k].sessions| && i' < |gs[k'].sessions|
    ensures gs[k].sessions[i].id != gs[k'].sessions[i'].id
  {
    InBag(gs, k);
    InBag(gs, k');
    var s, t := gs[k].sessions[i], gs[k'].sessions[i'];
    assert s in multiset(gs[k].sessions) && t in multiset(gs[k'].sessions);
    if s == t {
      TwoGroups(gs, k, k', s);
    }
  }

  lemma {:induction false} TwoGroups(gs: seq<Group>, k: nat, k': nat, s: Session)
    requires k < k' < |gs| && s in multiset(gs[k].sessions) && s in multiset(gs[k'].sessions)
    ensures Bag(gs)[s] >= 2
  {
    InBag(gs[..k'], k);
    Split(gs, k');
    BagAround(gs[..k'], gs[k'], gs[k' + 1..]);
  }

  // ----- What single updates achieve -----

  /** The layout given to a group that has outgrown its own has room for all, up to four panes. */
  lemma UpgradeFits(layout: Layout, n: nat)
    ensures Slots(Upgraded(layout, n)) >= (if n <= 4 then n else 4)
    ensures n <= Slots(layout) ==> Upgraded(layout, n) == layout
    ensures Slots(Upgraded(layout, n)) > Slots(layout) ==>
              forall l :: Slots(l) >= n ==> Slots(Upgraded(layout, n)) <= Slots(l)
  {
    var c3 := [Triple, TripleV, Quad];
    var c1 := [SplitH, SplitV] + c3;
    var c := [Single] + c1;
    assert c == [Single, SplitH, SplitV, Triple, TripleV, Quad];
    assert c[1..] == c1 && c1[1..][1..] == c3 && c3[1..] == [TripleV, Quad];
    assert c3[1..][1..] == [Quad] && [Quad][1..] == [];
    assert FirstThatFits([Quad], n) == Quad;
    assert FirstThatFits(c3[1..], n) == if n <= 3 then TripleV else Quad;
    assert FirstThatFits(c3, n) == if n <= 3 then Triple else Quad;
    assert FirstThatFits(c1, n) == if n <= 2 then SplitH else FirstThatFits(c3, n);
    assert FirstThatFits(c, n) == if n <= 1 then Single else FirstThatFits(c1, n);
  }

  /** A pane is drawn: the focused one alone in the single layout, the first ones otherwise. */
  predicate Visible(g: Group, i: nat)
    requires i < |g.sessions|
  {
    if g.layout == Single then g.sessions[i].id == g.focused else i < Slots(g.layout)
  }

  /** After a change of layout the focused session is on screen. */
  lemma LayoutShowsFocus(st: State, gid: GroupId, layout: Layout)
    requires Tidy(st.groups) && GroupIndex(st.groups, gid) >= 0
    ensures var st' := ChangeLayout(st, gid, layout);
            var g := st'.groups[GroupIndex(st.groups, gid)];
            g.id == gid && g.layout == layout
            && exists i :: 0 <= i < |g.sessions| && g.sessions[i].id == g.focused && Visible(g, i)
  {
    var k := GroupIndex(st.groups, gid);
    var g := st.groups[k];
    var g' := ChangeLayout(st, gid, layout).groups[k];
    assert InOrder(g);
    SessionsDistinct(st.groups, k);
    var i := IndexOf(g.sessions, g.focused);
    if i < 0 {
      Absent(g.sessions, g.focused);
      assert false;
    }
    var j := if layout != Single && i >= Slots(layout) then 0 else i;
    assert g'.sessions[j].id == g'.focused && Visible(g', j);
  }

  /** The dragged session takes the target's place; the others keep their order. */
  lemma ReorderPlaces(ss: seq<Session>, i: nat, j: nat)
    requires i < |ss| && j < |ss| && DistinctIds(ss)
    ensures |Moved(ss, i, j)| == |ss| && Moved(ss, i, j)[j] == ss[i]
    ensures Without(Moved(ss, i, j), ss[i].id) == Without(ss, ss[i].id)
  {
    var rest := ss[..i] + ss[i + 1..];
    IndexAt(ss, i);
    WithoutOne(ss, ss[i].id);
    RestLacks(ss, i);
    Reinserted(rest, ss[i], j);
    Place(rest, ss[i], j);
  }

  lemma Place<T>(rest: seq<T>, s: T, j: nat)
    requires j <= |rest|
    ensures (rest[..j] + [s] + rest[j..])[j] == s && |rest[..j] + [s] + rest[j..]| == |rest| + 1
  {
  }

  predicate NoSession(ss: seq<Session>, id: SessionId) {
    forall k :: 0 <= k < |ss| ==> ss[k].id != id
  }

  lemma RestLacks(ss: seq<Session>, i: nat)
    requires i < |ss| && DistinctIds(ss)
    ensures NoSession(ss[..i] + ss[i + 1..], ss[i].id)
  {
  }

  lemma Reinserted(rest: seq<Session>, s: Session, j: nat)
    requires j <= |rest| && NoSession(rest, s.id)
    ensures Without(rest[..j] + [s] + rest[j..], s.id) == rest
  {
    hide Without;
    WithoutAppend(rest[..j] + [s], rest[j..], s.id);
    WithoutAppend(rest[..j], [s], s.id);
    WithoutAbsent(rest[..j], s.id);
    WithoutAbsent(rest[j..], s.id);
    WithoutOnly(s);
    TakeDrop(rest, j);
  }

  lemma WithoutOnly(s: Session)
    ensures Without([s], s.id) == []
  {
    assert [s][1..] == [];
  }

  lemma {:induction false} WithoutAppend(a: seq<Session>, b: seq<Session>, id: SessionId)
    ensures Without(a + b, id) == Without(a, id) + Without(b, id)
  {
    if a == [] {
      assert a + b == b;
    } else {
      WithoutAppend(a[1..], b, id);
      HeadTail(a, b);
      Associative(if a[0].id == id then [] else [a[0]], Without(a[1..], id), Without(b, id));
    }
  }

  lemma {:induction false} IndexAt(ss: seq<Session>, i: nat)
    requires i < |ss| && DistinctIds(ss)
    ensures IndexOf(ss, ss[i].id) == i
  {
    if i > 0 {
      IndexAt(ss[1..], i - 1);
    }
  }

  /** Closing the focused session moves the focus to the one before it, or else to the first that is left. */
  lemma CloseFocusesNeighbour(g: Group, i: nat)
    requires DistinctIds(g.sessions) && i < |g.sessions| && g.focused == g.sessions[i].id && |g.sessions| > 1
    ensures FocusAfterClose(g, g.focused) == g.sessions[if i == 0 then 1 else i - 1].id
  {
    IndexAt(g.sessions, i);
    WithoutOne(g.sessions, g.focused);
  }

  /** What is left of a group: the other sessions in their order, in a layout that fits them. */
  lemma KeepingFits(g: Group, remaining: seq<Session>, focused: SessionId)
    requires remaining != []
    ensures var h := Keeping(remaining, focused)(g);
            && h.id == g.id && h.sessions == remaining && h.focused == focused
            && Slots(h.layout) == if |remaining| <= 4 then |remaining| else 4
  {
    BestLayoutFits(|remaining|);
  }

  /**
    Closing a session that is not alone in its group leaves the group with the other sessions in their
    order, in a layout that fits them, the focus moved only if it was on the session closed.
   */
  lemma CloseLeaves(st: State, gid: GroupId, sid: SessionId)
    requires Tidy(st.groups) && GroupIndex(st.groups, gid) >= 0
    requires var g := st.groups[GroupIndex(st.groups, gid)]; Holds(g, sid) && |g.sessions| > 1
    ensures |CloseSession(st, gid, sid).groups| == |st.groups| && CloseSession(st, gid, sid).active == st.active
    ensures var g := st.groups[GroupIndex(st.groups, gid)];
            var h := CloseSession(st, gid, sid).groups[GroupIndex(st.groups, gid)];
            && h.id == gid && h.sessions == Without(g.sessions, sid)
            && Slots(h.layout) == (if |h.sessions| <= 4 then |h.sessions| else 4)
            && h.focused == if g.focused == sid then FocusAfterClose(g, sid) else g.focused
  {
    var k := GroupIndex(st.groups, gid);
    var g := st.groups[k];
    TidyDistinct(st.groups, k);
    WithoutBag(g.sessions, sid);
    KeepingFits(g, Without(g.sessions, sid), FocusAfterClose(g, sid));
  }

  /** Closing a group's only session removes the group, and the first group left becomes active in its place. */
  lemma CloseLast(st: State, gid: GroupId, sid: SessionId)
    requires Tidy(st.groups) && |st.groups| > 1 && GroupIndex(st.groups, gid) >= 0
    requires var g := st.groups[GroupIndex(st.groups, gid)]; |g.sessions| == 1 && g.sessions[0].id == sid
    ensures var k := GroupIndex(st.groups, gid);
            var st' := CloseSession(st, gid, sid);
            && st'.groups == st.groups[..k] + st.groups[k + 1..]
            && st'.active == if st.active == Some(gid) then Some(st'.groups[0].id) else st.active
  {
    var k := GroupIndex(st.groups, gid);
    var g := st.groups[k];
    assert Without(g.sessions, sid) == [] by {
      assert g.sessions[1..] == [];
    }
    WithoutRemoves(st.groups, gid);
  }

  /**
    A session taken out of a group by a merge or a drop leaves the others in their order, in a layout that
    fits them, with the focus on the first; a group left empty disappears.
   */
  lemma ExtractLeaves(gs: seq<Group>, from: GroupId, sid: SessionId)
    requires Tidy(gs) && GroupIndex(gs, from) >= 0 && Holds(gs[GroupIndex(gs, from)], sid)
    ensures var k := GroupIndex(gs, from);
            var left := Without(gs[k].sessions, sid);
            if left == [] then Extracted(gs, from, sid) == gs[..k] + gs[k + 1..]
            else
              var h := Extracted(gs, from, sid)[k];
              && Extracted(gs, from, sid) == gs[..k] + [h] + gs[k + 1..]
              && h.id == from && h.sessions == left && h.focused == left[0].id
              && Slots(h.layout) == if |left| <= 4 then |left| else 4
  {
    var k := GroupIndex(gs, from);
    var left := Without(gs[k].sessions, sid);
    if left == [] {
      WithoutRemoves(gs, from);
    } else {
      MapReplaces(gs, from, Keeping(left, HeadFocus(left)));
      KeepingFits(gs[k], left, HeadFocus(left));
    }
  }

  /** A merge takes the session out and appends it to the target; a drop takes it out and inserts its group. */
  lemma MergeIsExtractAndAdd(st: State, from: GroupId, sid: SessionId, to: GroupId)
    requires from != to && GroupIndex(st.groups, to) >= 0
    requires GroupIndex(st.groups, from) >= 0 && Holds(st.groups[GroupIndex(st.groups, from)], sid)
    ensures var ss := st.groups[GroupIndex(st.groups, from)].sessions;
            var out := State(Extracted(st.groups, from, sid), Some(to));
            ExecuteMerge(st, from, sid, to) == AddSession(out, ss[IndexOf(ss, sid)])
  {
  }

  lemma DropIsExtractAndInsert(st: State, from: GroupId, sid: SessionId, pos: nat, newId: GroupId)
    requires Tidy(st.groups) && GroupIndex(st.groups, from) >= 0 && Holds(st.groups[GroupIndex(st.groups, from)], sid)
    ensures var g := st.groups[GroupIndex(st.groups, from)];
            var kept := Extracted(st.groups, from, sid);
            var p := if pos <= |kept| then pos else |kept|;
            var st' := ExecuteDropToZone(st, from, sid, pos, newId);
            && st'.active == st.active
            && p < |st'.groups|
            && st'.groups == kept[..p] + [st'.groups[p]] + kept[p..]
            && st'.groups[p].id == (if |g.sessions| == 1 then from else newId)
            && st'.groups[p].focused == (if |g.sessions| == 1 then g.focused else sid)
  {
    hide Tidy, Bag, GroupIndex, IndexOf, DistinctIds, Without, WithoutGroup, MapGroup, Keeping, HeadFocus;
    var f := GroupIndex(st.groups, from);
    TidyDistinct(st.groups, f);
    WithoutBag(st.groups[f].sessions, sid);
    var kept := Extracted(st.groups, from, sid);
    var st' := ExecuteDropToZone(st, from, sid, pos, newId);
    var p := if pos <= |kept| then pos else |kept|;
    Place(kept, st'.groups[p], p);
  }

  /** The groups an update is about. */
  function Touched(st: State, e: Event): set<GroupId> {
    match e
    case Add(s) => if st.active.Some? then {st.active.value} else {}
    case Close(gid, sid) => {gid}
    case Rearrange(gid, layout) => {gid}
    case Merge(from, sid, to) => {from, to}
    case Drop(from, sid, pos, newId) => {from}
    case Move(gid, sid, target) => {gid}
    case Focus(gid, sid) => {gid}
  }

  /** Every other group stays as it is. */
  lemma OthersUntouched(st: State, e: Event, g: Group)
    requires Tidy(st.groups) && g in st.groups && g.id !in Touched(st, e)
    ensures g in Step(st, e).groups
  {
    match e
    case Add(s) => if st.active.Some? { MapLeaves(st.groups, st.active.value, Adding(s), g); }
    case Close(gid, sid) =>
      var k := GroupIndex(st.groups, gid);
      if k >= 0 {
        var left := Without(st.groups[k].sessions, sid);
        RemoveLeaves(st.groups, gid, g);
        MapLeaves(st.groups, gid, Keeping(left, FocusAfterClose(st.groups[k], sid)), g);
      }
    case Rearrange(gid, layout) =>
      var k := GroupIndex(st.groups, gid);
      if k >= 0 {
        var h := ChangeLayout(st, gid, layout).groups[k];
        MapLeaves(st.groups, gid, Arranged(h.sessions, layout), g);
      }
    case Merge(from, sid, to) =>
      if from != to && GroupIndex(st.groups, from) >= 0 && GroupIndex(st.groups, to) >= 0
         && Holds(st.groups[GroupIndex(st.groups, from)], sid) {
        var ss := st.groups[GroupIndex(st.groups, from)].sessions;
        ExtractLeavesOthers(st.groups, from, sid, g);
        MapLeaves(Extracted(st.groups, from, sid), to, Adding(ss[IndexOf(ss, sid)]), g);
      }
    case Drop(from, sid, pos, newId) =>
      if GroupIndex(st.groups, from) >= 0 && Holds(st.groups[GroupIndex(st.groups, from)], sid) {
        ExtractLeavesOthers(st.groups, from, sid, g);
        var h := st.groups[GroupIndex(st.groups, from)];
        InsertLeaves(Extracted(st.groups, from, sid), pos,
                     if Without(h.sessions, sid) == [] then h.(layout := Single) else Alone(h, sid, newId), g);
      }
    case Move(gid, sid, target) =>
      var k := GroupIndex(st.groups, gid);
      if k >= 0 {
        var h := Reorder(st, gid, sid, target).groups[k];
        MapLeaves(st.groups, gid, Arranged(h.sessions, st.groups[k].layout), g);
      }
    case Focus(gid, sid) => MapLeaves(st.groups, gid, Focusing(sid), g);
  }

  lemma MapLeaves(gs: seq<Group>, id: GroupId, f: Group -> Group, g: Group)
    requires g in gs && g.id != id
    ensures g in MapGroup(gs, id, f)
  {
    var i :| 0 <= i < |gs| && gs[i] == g;
    assert MapGroup(gs, id, f)[i] == g;
  }

  lemma {:induction false} RemoveLeaves(gs: seq<Group>, id: GroupId, g: Group)
    requires g in gs && g.id != id
    ensures g in WithoutGroup(gs, id)
  {
    if gs[0] != g {
      RemoveLeaves(gs[1..], id, g);
    }
  }

  lemma InsertLeaves(gs: seq<Group>, pos: nat, h: Group, g: Group)
    requires g in gs
    ensures g in InsertAt(gs, pos, h)
  {
    var p := if pos <= |gs| then pos else |gs|;
    var i :| 0 <= i < |gs| && gs[i] == g;
    assert InsertAt(gs, pos, h)[if i < p then i else i + 1] == g;
  }

  lemma ExtractLeavesOthers(gs: seq<Group>, from: GroupId, sid: SessionId, g: Group)
    requires g in gs && g.id != from
    ensures g in Extracted(gs, from, sid)
  {
    var k := GroupIndex(gs, from);
    if k >= 0 {
      var left := Without(gs[k].sessions, sid);
      RemoveLeaves(gs, from, g);
      MapLeaves(gs, from, Keeping(left, HeadFocus(left)), g);
    }
  }

  /** A reorder that finds both sessions moves the one to the other's place and keeps the rest of the group. */
  lemma {:induction false} ReorderDoes(st: State, gid: GroupId, sid: SessionId, target: SessionId)
    requires Tidy(st.groups) && GroupIndex(st.groups, gid) >= 0
    requires var g := st.groups[GroupIndex(st.groups, gid)]; Holds(g, sid) && Holds(g, target)
    ensures var g := st.groups[GroupIndex(st.groups, gid)];
            var st' := Step(st, Move(gid, sid, target));
            var h := st'.groups[GroupIndex(st.groups, gid)];
            && st'.active == st.active && h.id == gid && h.layout == g.layout && h.focused == g.focused
            && |h.sessions| == |g.sessions|
            && h.sessions[IndexOf(g.sessions, target)].id == sid
            && Without(h.sessions, sid) == Without(g.sessions, sid)
  {
    var k := GroupIndex(st.groups, gid);
    var ss := st.groups[k].sessions;
    TidyDistinct(st.groups, k);
    ReorderPlaces(ss, IndexOf(ss, sid), IndexOf(ss, target));
  }

  /** A change of layout keeps the focus and the order, but for one swap when the focused pane would be hidden. */
  lemma LayoutDoes(st: State, gid: GroupId, layout: Layout)
    requires Tidy(st.groups) && GroupIndex(st.groups, gid) >= 0
    ensures var g := st.groups[GroupIndex(st.groups, gid)];
            var st' := Step(st, Rearrange(gid, layout));
            var h := st'.groups[GroupIndex(st.groups, gid)];
            var i := IndexOf(g.sessions, g.focused);
            && st'.active == st.active && h.focused == g.focused && h.layout == layout
            && 0 <= i < |g.sessions| == |h.sessions|
            && (layout == Single || i < Slots(layout) ==> h.sessions == g.sessions)
            && (layout != Single && i >= Slots(layout) ==>
                  && h.sessions[0] == g.sessions[i] && h.sessions[i] == g.sessions[0]
                  && forall j :: 0 < j < |g.sessions| && j != i ==> h.sessions[j] == g.sessions[j])
  {
    var k := GroupIndex(st.groups, gid);
    assert InOrder(st.groups[k]);
    if IndexOf(st.groups[k].sessions, st.groups[k].focused) < 0 {
      Absent(st.groups[k].sessions, st.groups[k].focused);
      assert false;
    }
  }

  /** A click focuses the session in its group and makes the group active. */
  lemma ClickDoes(st: State, gid: GroupId, sid: SessionId)
    requires GroupIndex(st.groups, gid) >= 0 && Holds(st.groups[GroupIndex(st.groups, gid)], sid)
    ensures var k := GroupIndex(st.groups, gid);
            var st' := Step(st, Focus(gid, sid));
            st'.active == Some(gid) && |st'.groups| == |st.groups| && st'.groups[k] == st.groups[k].(focused := sid)
  {
  }

  /** The layout given to a group that has shrunk shows all its sessions, up to four, and wastes no pane. */
  lemma BestLayoutFits(n: nat)
    requires n > 0
    ensures Slots(BestLayout(n)) == if n <= 4 then n else 4
  {
  }

  /** A new session goes last in the active group, focused, in a layout with room for it up to four. */
  lemma AddJoins(st: State, s: Session)
    requires ActiveExists(st)
    ensures var k := GroupIndex(st.groups, st.active.value);
            var g := AddSession(st, s).groups[k];
            && g.id == st.active.value
            && g.sessions == st.groups[k].sessions + [s]
            && g.focused == s.id
            && Slots(g.layout) >= (if |g.sessions| <= 4 then |g.sessions| else 4)
  {
    UpgradeFits(st.groups[GroupIndex(st.groups, st.active.value)].layout,
                |st.groups[GroupIndex(st.groups, st.active.value)].sessions| + 1);
  }

  /** A merge that finds its session and both groups puts it last in the target group and in focus. */
  lemma {:induction false} MergeJoins(st: State, from: GroupId, sid: SessionId, to: GroupId)
    requires Tidy(st.groups) && from != to && GroupIndex(st.groups, to) >= 0
    requires GroupIndex(st.groups, from) >= 0 && Holds(st.groups[GroupIndex(st.groups, from)], sid)
    ensures var st' := ExecuteMerge(st, from, sid, to);
            var t := GroupIndex(st'.groups, to);
            && st'.active == Some(to) && t >= 0
            && st'.groups[t].focused == sid
            && st'.groups[t].sessions != []
            && st'.groups[t].sessions[|st'.groups[t].sessions| - 1].id == sid
  {
    var ss := st.groups[GroupIndex(st.groups, from)].sessions;
    var kept := Extracted(st.groups, from, sid);
    OtherGroupsStay(st.groups, from, sid, to);
    SameIndexAfterMap(kept, to, Adding(ss[IndexOf(ss, sid)]), to);
  }

  predicate StandsAlone(g: Group, sid: SessionId) {
    |g.sessions| == 1 && g.sessions[0].id == sid && g.layout == Single
  }

  lemma LoneGroup(g: Group, sid: SessionId, newId: GroupId)
    requires DistinctIds(g.sessions) && Holds(g, sid)
    ensures StandsAlone(Alone(g, sid, newId), sid)
    ensures Without(g.sessions, sid) == [] ==> StandsAlone(g.(layout := Single), sid)
  {
    WithoutBag(g.sessions, sid);
  }

  /** A drop that finds its session leaves it alone in a group at the place of the drop, or at the end. */
  lemma DropSeparates(st: State, from: GroupId, sid: SessionId, pos: nat, newId: GroupId)
    requires Tidy(st.groups) && GroupIndex(st.groups, newId) < 0
    requires GroupIndex(st.groups, from) >= 0 && Holds(st.groups[GroupIndex(st.groups, from)], sid)
    ensures var gs := ExecuteDropToZone(st, from, sid, pos, newId).groups;
            exists k :: 0 <= k < |gs| && (k == pos || k == |gs| - 1 < pos) && StandsAlone(gs[k], sid)
  {
    hide Tidy;
    var f := GroupIndex(st.groups, from);
    var g := st.groups[f];
    assert DistinctIds(g.sessions) by {
      TidyDistinct(st.groups, f);
    }
    LoneGroup(g, sid, newId);
    var kept := Extracted(st.groups, from, sid);
    var moved := if Without(g.sessions, sid) == [] then g.(layout := Single) else Alone(g, sid, newId);
    var k := if pos <= |kept| then pos else |kept|;
    Place(kept, moved, k);
    assert ExecuteDropToZone(st, from, sid, pos, newId).groups == kept[..k] + [moved] + kept[k..];
    assert StandsAlone((kept[..k] + [moved] + kept[k..])[k], sid);
  }

  lemma TidyDistinct(gs: seq<Group>, k: nat)
    requires Tidy(gs) && k < |gs|
    ensures DistinctIds(gs[k].sessions)
  {
    SessionsDistinct(gs, k);
  }

  /** `[next[0], next[idx]] = [next[idx], next[0]]` on a copy of the sessions. */
  method SwapWithFirst(ss: seq<Session>, idx: nat) returns (r: seq<Session>)
    requires idx < |ss|
    ensures r == Swapped(ss, 0, idx) && multiset(r) == multiset(ss)
    ensures r[0] == ss[idx] && r[idx] == ss[0] && forall i :: 0 < i < |ss| && i != idx ==> r[i] == ss[i]
  {
    var next := new Session[|ss|](i requires 0 <= i < |ss| => ss[i]);
    next[0], next[idx] := next[idx], next[0];
    r := next[..];
    SwapBag(ss, 0, idx);
  }

  /** The two `splice` calls on a copy of the sessions. */
  method SpliceTo(ss: seq<Session>, fromIdx: nat, toIdx: nat) returns (sessions: seq<Session>)
    requires fromIdx < |ss| && toIdx < |ss|
    ensures sessions == Moved(ss, fromIdx, toIdx) && multiset(sessions) == multiset(ss)
  {
    sessions := ss;
    var moved := sessions[fromIdx];
    sessions := sessions[..fromIdx] + sessions[fromIdx + 1..];
    sessions := sessions[..toIdx] + [moved] + sessions[toIdx..];
    MoveBag(ss, fromIdx, toIdx);
  }

  // ----- The active group -----

  /** A merge into a group that has gone makes it active all the same. */
  predicate ActivatesMissing(st: State, e: Event) {
    e.Merge? && e.from != e.to && GroupIndex(st.groups, e.to) < 0
  }

  /**
    As long as there are groups the active one exists, and stays so under every update if and only if it
    is not a merge into a group that has gone; after such a merge a new session is lost.
   */
  lemma ActiveStays(st: State, e: Event)
    requires Tidy(st.groups) && Possible(st, e) && ActiveExists(st)
    ensures ActiveExists(Step(st, e)) <==> !ActivatesMissing(st, e)
  {
    var id := st.active.value;
    match e
    case Add(s) => SameIndexAfterMap(st.groups, id, Adding(s), id);
    case Close(gid, sid) => ActiveAfterClose(st, gid, sid);
    case Rearrange(gid, layout) =>
      var k := GroupIndex(st.groups, gid);
      if k >= 0 {
        SameIndex(st.groups, ChangeLayout(st, gid, layout).groups, id);
      }
    case Merge(from, sid, to) =>
      if from != to && GroupIndex(st.groups, from) >= 0 && GroupIndex(st.groups, to) >= 0
         && Holds(st.groups[GroupIndex(st.groups, from)], sid) {
        MergeJoins(st, from, sid, to);
      }
    case Drop(from, sid, pos, newId) => ActiveAfterDrop(st, from, sid, pos, newId);
    case Move(gid, sid, target) =>
      if Reorder(st, gid, sid, target) != st {
        SameIndex(st.groups, Reorder(st, gid, sid, target).groups, id);
      }
    case Focus(gid, sid) => SameIndexAfterMap(st.groups, gid, Focusing(sid), gid);
  }

  lemma SameIndexAfterMap(gs: seq<Group>, id: GroupId, f: Group -> Group, other: GroupId)
    requires forall g :: f(g).id == g.id
    ensures GroupIndex(MapGroup(gs, id, f), other) == GroupIndex(gs, other)
  {
    SameIndex(gs, MapGroup(gs, id, f), other);
  }

  lemma ActiveAfterClose(st: State, gid: GroupId, sid: SessionId)
    requires Tidy(st.groups) && ActiveExists(st)
    ensures ActiveExists(CloseSession(st, gid, sid))
  {
    var k := GroupIndex(st.groups, gid);
    if k >= 0 {
      var remaining := Without(st.groups[k].sessions, sid);
      if remaining != [] {
        SameIndexAfterMap(st.groups, gid, Keeping(remaining, FocusAfterClose(st.groups[k], sid)), st.active.value);
      } else if st.active.value != gid {
        OtherGroupsStay(st.groups, gid, sid, st.active.value);
      }
    }
  }

  lemma ActiveAfterDrop(st: State, from: GroupId, sid: SessionId, pos: nat, newId: GroupId)
    requires Tidy(st.groups) && ActiveExists(st)
    ensures ActiveExists(ExecuteDropToZone(st, from, sid, pos, newId))
  {
    var f := GroupIndex(st.groups, from);
    if f >= 0 && Holds(st.groups[f], sid) {
      var g := st.groups[f];
      var left := Without(g.sessions, sid);
      var kept := Extracted(st.groups, from, sid);
      var moved := if left == [] then g.(layout := Single) else Alone(g, sid, newId);
      if st.active.value != from {
        OtherGroupsStay(st.groups, from, sid, st.active.value);
      } else if left != [] {
        SameIndexAfterMap(st.groups, from, Keeping(left, HeadFocus(left)), from);
      }
      InsertFinds(kept, pos, moved, st.active.value);
    }
  }

  lemma InsertFinds(gs: seq<Group>, pos: nat, g: Group, id: GroupId)
    requires GroupIndex(gs, id) >= 0 || g.id == id
    ensures GroupIndex(InsertAt(gs, pos, g), id) >= 0
  {
    var all := InsertAt(gs, pos, g);
    var p := if pos <= |gs| then pos else |gs|;
    FoundGroup(all, id);
    if g.id == id {
      assert all[p] == g;
    } else {
      var k := GroupIndex(gs, id);
      assert all[if k < p then k else k + 1] == gs[k];
    }
  }

  // ----- The lost session -----

  lemma RunLast(st: State, es: seq<Event>, e: Event)
    ensures Run(st, es + [e]) == Step(Run(st, es), e)
  {
    assert (es + [e])[..|es|] == es;
  }

  /** The sessions of the example are numbered by their ids. */
  function Numbered(id: SessionId): Session {
    Session(id, 0, Ssh)
  }

  /** A second session is dropped into a group of its own, closed, and then merged into. */
  function MergeTooLate(): seq<Event> {
    [Add(Numbered(2))] + [Drop(1, 2, 0, 2)] + [Close(2, 2)] + [Merge(1, 1, 2)]
  }

  function Lone(id: GroupId, s: Session): Group {
    Group(id, Single, [s], s.id)
  }

  lemma AddSecond()
    ensures Step(Opening(Some(Numbered(1)), 1), Add(Numbered(2)))
         == State([Group(1, SplitH, [Numbered(1), Numbered(2)], 2)], Some(1))
  {
    var st := Opening(Some(Numbered(1)), 1);
    BagOne(st.groups[0]);
    assert Possible(st, Add(Numbered(2)));
    var c := [Single, SplitH, SplitV, Triple, TripleV, Quad];
    assert c[1..][0] == SplitH;
    assert Upgraded(Single, 2) == SplitH;
    assert [Numbered(1)] + [Numbered(2)] == [Numbered(1), Numbered(2)];
  }

  lemma DropSecond()
    ensures Step(State([Group(1, SplitH, [Numbered(1), Numbered(2)], 2)], Some(1)), Drop(1, 2, 0, 2))
         == State([Lone(2, Numbered(2)), Lone(1, Numbered(1))], Some(1))
  {
    var st := State([Group(1, SplitH, [Numbered(1), Numbered(2)], 2)], Some(1));
    var ss := st.groups[0].sessions;
    assert ss[1..] == [Numbered(2)] && ss[1..][1..] == [];
    assert Without(ss, 2) == [Numbered(1)];
    assert IndexOf(ss, 2) == 1;
    assert st.groups[1..] == [];
    assert Step(st, Drop(1, 2, 0, 2)).groups == [Lone(2, Numbered(2)), Lone(1, Numbered(1))];
  }

  lemma CloseSecond()
    ensures Step(State([Lone(2, Numbered(2)), Lone(1, Numbered(1))], Some(1)), Close(2, 2))
         == State([Lone(1, Numbered(1))], Some(1))
  {
    var gs := [Lone(2, Numbered(2)), Lone(1, Numbered(1))];
    assert gs[1..] == [Lone(1, Numbered(1))] && gs[1..][1..] == [];
    assert gs[0].sessions[1..] == [];
    assert Without(gs[0].sessions, 2) == [];
    assert WithoutGroup(gs, 2) == [Lone(1, Numbered(1))];
  }

  lemma MergeIntoGone()
    ensures var st := State([Lone(1, Numbered(1))], Some(1));
            ActivatesMissing(st, Merge(1, 1, 2)) && Step(st, Merge(1, 1, 2)) == State(st.groups, Some(2))
  {
    var gs := [Lone(1, Numbered(1))];
    assert gs[1..] == [];
  }

  lemma AddIsLost(s: Session)
    requires s.id != 1
    ensures var st := State([Lone(1, Numbered(1))], Some(2));
            Possible(st, Add(s)) && !ActiveExists(st) && Step(st, Add(s)) == st
  {
    var gs := [Lone(1, Numbered(1))];
    assert gs[1..] == [];
    BagOne(gs[0]);
    assert MapGroup(gs, 2, Adding(s)) == gs;
  }

  /** The late merge activates the group that has gone, and whatever session is added next is lost. */
  lemma SessionLost(s: Session)
    requires s.id != 1
    ensures var st := Run(Opening(Some(Numbered(1)), 1), MergeTooLate());
            st.active == Some(2) && Possible(st, Add(s)) && !ActiveExists(st) && Step(st, Add(s)) == st
  {
    hide Step, Possible, ActiveExists, ActivatesMissing;
    var st0 := Opening(Some(Numbered(1)), 1);
    AddSecond();
    DropSecond();
    CloseSecond();
    MergeIntoGone();
    AddIsLost(s);
    RunLast(st0, [], Add(Numbered(2)));
    assert [] + [Add(Numbered(2))] == [Add(Numbered(2))];
    RunLast(st0, [Add(Numbered(2))], Drop(1, 2, 0, 2));
    RunLast(st0, [Add(Numbered(2))] + [Drop(1, 2, 0, 2)], Close(2, 2));
    RunLast(st0, [Add(Numbered(2))] + [Drop(1, 2, 0, 2)] + [Close(2, 2)], Merge(1, 1, 2));
  }
}
