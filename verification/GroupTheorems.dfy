/** No lock-out, at any node, in any run: the founder and the baseline role survive every order in which
    endpoints are called and frames, grants and rosters arrive. */
module GroupTheorems {
  import opened Wrappers
  import opened Groups
  import opened GroupNet

  /** The founder is a member and holds `founder`; the two immutable roles are intact; every assignment
      names a member and a role; every member but the founder holds the baseline role. */
  predicate Sound(founder: Key, members: set<Key>, roles: map<RoleName, set<Perm>>, holdings: set<(Key, RoleName)>) {
    && founder in members && (founder, FOUNDER) in holdings
    && FOUNDER in roles && roles[FOUNDER] == ALL_PERMS
    && MEMBER in roles && roles[MEMBER] == MEMBER_PERMS
    && ADMIN in roles
    && (forall a <- holdings :: a.0 in members && a.1 in roles)
    && (forall k <- members :: k == founder || (k, MEMBER) in holdings)
  }

  predicate SoundReplica(r: Replica) {
    Sound(r.founder, r.members, r.roles, r.holdings)
  }

  /** In sound tables every member may read the group, and the founder may do everything. */
  lemma NobodyLockedOut(r: Replica, k: Key)
    requires SoundReplica(r) && k in r.members
    ensures GROUP_READ in Permissions(r, k)
    ensures k == r.founder ==> ALL_PERMS <= Permissions(r, k)
  {
    var n := if k == r.founder then FOUNDER else MEMBER;
    assert (k, n) in r.holdings && n in r.roles;
    assert GROUP_READ in r.roles[n];
    forall p | k == r.founder && p in ALL_PERMS
      ensures p in Permissions(r, k)
    {
      assert p in r.roles[n];
    }
  }

  // ---- what each row operation keeps ----

  lemma AdmitSound(r: Replica, k: Key)
    requires SoundReplica(r)
    ensures SoundReplica(Admit(r, k))
  {
  }

  lemma WithoutRoleSound(r: Replica, name: RoleName)
    requires SoundReplica(r) && name != FOUNDER && name != MEMBER && name != ADMIN
    ensures SoundReplica(WithoutRole(r, name))
  {
  }

  lemma WithRolesSound(r: Replica, k: Key, names: set<RoleName>)
    requires SoundReplica(r) && k in r.members && names <= r.roles.Keys && MEMBER in names
    requires k == r.founder ==> FOUNDER in names
    ensures SoundReplica(WithRoles(r, k, names))
  {
    var s := WithRoles(r, k, names);
    assert forall n <- names :: (k, n) in s.holdings;
  }

  /** Removing a member keeps the tables sound exactly when it is not the founder. */
  lemma WithoutSoundIff(r: Replica, k: Key)
    requires SoundReplica(r)
    ensures SoundReplica(Without(r, k)) <==> k != r.founder
  {
  }

  lemma RefreshSound(r: Replica, roster: Roster)
    requires SoundReplica(r) && Sound(r.founder, roster.members, roster.roles, roster.holdings)
    ensures SoundReplica(Refresh(r, roster))
  {
  }

  lemma RosterSound(r: Replica)
    requires SoundReplica(r)
    ensures var roster := RosterOf(r); Sound(r.founder, roster.members, roster.roles, roster.holdings)
  {
  }

  /** Frames that remove the founder from somebody else's tables: the only ones that can do harm. */
  predicate Deposes(r: Replica, f: Frame) {
    f.Rotate? && f.gone == r.founder && f.gone != "" && f.gone != r.me
  }

  /** Whatever frame arrives, from whomever, the tables stay sound exactly when it is refused or does not
      remove the founder. */
  lemma FrameSoundIff(r: Replica, f: Frame)
    requires SoundReplica(r)
    ensures SoundReplica(ApplyFrame(r, f)) <==> !(Authorized(r, f) && Deposes(r, f))
  {
    if Authorized(r, f) {
      match f
      case RosterAdd(_, member) => AdmitSound(r, member);
      case RolesAssign(_, member, names) =>
        var wanted := (names + {MEMBER} + if member == r.founder then {FOUNDER} else {}) * r.roles.Keys;
        if member in r.members { WithRolesSound(r, member, wanted); }
      case RoleUpsert(_, name, perms) =>
      case RoleDelete(_, name) =>
        var n := Groups.Text.Strip(name);
        if n != FOUNDER && n != ADMIN && n != MEMBER { WithoutRoleSound(r, n); }
      case Rotate(_, gone, recipients, symkey) =>
        WithoutSoundIff(if r.me in recipients then r.(symkey := Some(symkey)) else r, gone);
    }
  }

  // ---- every node, every run ----

  /** The node's own tables, sound, for the group's founder. */
  predicate NodeOk(g: Net, n: Key, r: Replica) {
    r.me == n && r.founder == g.founder && SoundReplica(r) && (r.cap > 0 ==> n == g.founder)
  }

  predicate NodesOk(g: Net) {
    g.founder in g.nodes && forall n <- g.nodes :: NodeOk(g, n, g.nodes[n])
  }

  predicate FramesOk(g: Net) {
    forall f <- g.frames :: f.Rotate? ==> f.gone != g.founder
  }

  predicate RostersOk(g: Net) {
    forall x <- g.rosters :: Sound(g.founder, x.members, x.roles, x.holdings)
  }

  predicate NetOk(g: Net) {
    NodesOk(g) && FramesOk(g) && RostersOk(g)
  }

  lemma PutOk(g: Net, h: Net, n: Key, r: Replica)
    requires NodesOk(g) && RostersOk(g) && NodeOk(g, n, r)
    requires h.nodes == g.nodes[n := r] && h.founder == g.founder && h.rosters == g.rosters
    ensures NodesOk(h) && RostersOk(h)
  {
  }

  lemma EndpointOk(g: Net, s: Step)
    requires NetOk(g) && Enabled(g, s)
    requires s.DoUpsert? || s.DoDelete? || s.DoAssign? || s.DoKick? || s.DoLeave?
    ensures NetOk(Apply(g, s))
  {
    var h := Apply(g, s);
    var n := s.n;
    var r := g.nodes[n];
    assert NodeOk(g, n, r);
    match s
    case DoUpsert(_, name, perms) =>
      if CanUpsert(r, name) { PutOk(g, h, n, WithRoleDefined(r, name, perms)); }
    case DoDelete(_, name) =>
      if CanDeleteRole(r, name) {
        WithoutRoleSound(r, name);
        PutOk(g, h, n, WithoutRole(r, name));
      }
    case DoAssign(_, k, names) =>
      if CanAssign(r, k, names) {
        WithRolesSound(r, k, names + {MEMBER});
        PutOk(g, h, n, WithRoles(r, k, names + {MEMBER}));
      }
    case DoKick(_, k) =>
      if CanKick(r, k) {
        WithoutSoundIff(r, k);
        PutOk(g, h, n, Without(r, k).(symkey := Some(g.minted)));
      }
    case DoLeave(_) =>
      if CanLeave(r) {
        WithoutSoundIff(r, n);
        PutOk(g, h, n, Without(r, n).(symkey := Some(g.minted)));
      }
  }

  lemma IssueOk(g: Net, r: Replica, k: Key, sealable: bool)
    requires NetOk(g) && NodeOk(g, r.me, r)
    ensures NetOk(IssueGrant(g, r, k, sealable))
  {
    var h := IssueGrant(g, r, k, sealable);
    AdmitSound(r, k);
    PutOk(g, h, r.me, h.nodes[r.me]);
  }

  lemma AdmissionOk(g: Net, s: Step)
    requires NetOk(g) && Enabled(g, s) && (s.DoJoin? || s.DoApprove?)
    ensures NetOk(Apply(g, s))
  {
    var r := g.nodes[s.n];
    assert NodeOk(g, s.n, r);
    match s
    case DoJoin(n, k, id, sealable) =>
      if CanJoin(r, k) {
        if !r.isPrivate {
          IssueOk(g, r, k, sealable);
        } else if id !in r.pending {
          PutOk(g, Apply(g, s), n, r.(pending := r.pending[id := Request(k, sealable, Waiting)]));
        }
      }
    case DoApprove(n, id) =>
      if CanApprove(r, id) {
        var q := r.pending[id];
        IssueOk(g, r.(pending := r.pending[id := q.(state := Approved)]), q.joiner, q.sealable);
      }
  }

  lemma GrantOk(g: Net, a: Grant)
    requires NetOk(g) && a in g.grants
    ensures NetOk(ReceiveGrant(g, a))
  {
    var r := if a.joiner in g.nodes then g.nodes[a.joiner] else Bootstrap(a.joiner, g.founder, a.isPrivate, a.symkey);
    assert NodeOk(g, a.joiner, r);
    AdmitSound(r, a.joiner);
    PutOk(g, ReceiveGrant(g, a), a.joiner, TakeGrant(r));
  }

  lemma DeliverOk(g: Net, n: Key, f: Frame)
    requires NetOk(g) && n in g.nodes && f in g.frames
    ensures NetOk(Deliver(g, n, f))
  {
    var r := g.nodes[n];
    assert NodeOk(g, n, r);
    FrameSoundIff(r, f);
    FrameScope(r, f);
    PutOk(g, Deliver(g, n, f), n, ApplyFrame(r, f));
  }

  lemma FrameScope(r: Replica, f: Frame)
    ensures var s := ApplyFrame(r, f); s.me == r.me && s.founder == r.founder && s.cap == r.cap
  {
  }

  lemma RosterOk(g: Net, n: Key, roster: Roster)
    requires NetOk(g) && n in g.nodes && roster in g.rosters
    ensures NetOk(TakeRoster(g, n, roster))
  {
    var r := g.nodes[n];
    assert NodeOk(g, n, r);
    RefreshSound(r, roster);
    PutOk(g, TakeRoster(g, n, roster), n, Refresh(r, roster));
  }

  lemma SendRosterOk(g: Net)
    requires NetOk(g)
    ensures NetOk(SendRoster(g))
  {
    assert NodeOk(g, g.founder, g.nodes[g.founder]);
    RosterSound(g.nodes[g.founder]);
  }

  lemma ApplyOk(g: Net, s: Step)
    requires NetOk(g)
    ensures NetOk(Apply(g, s))
  {
    if Enabled(g, s) {
      match s
      case DoUpsert(_, _, _) => EndpointOk(g, s);
      case DoDelete(_, _) => EndpointOk(g, s);
      case DoAssign(_, _, _) => EndpointOk(g, s);
      case DoKick(_, _) => EndpointOk(g, s);
      case DoLeave(_) => EndpointOk(g, s);
      case DoJoin(_, _, _, _) => AdmissionOk(g, s);
      case DoApprove(_, _) => AdmissionOk(g, s);
      case DoGrant(a) => GrantOk(g, a);
      case DoDeliver(n, f) => DeliverOk(g, n, f);
      case DoSendRoster => SendRosterOk(g);
      case DoTakeRoster(n, roster) => RosterOk(g, n, roster);
    }
  }

  lemma SameFounder(g: Net, s: Step)
    ensures Apply(g, s).founder == g.founder
  {
  }

  lemma {:induction false} ExecOk(g: Net, steps: seq<Step>)
    requires NetOk(g)
    ensures NetOk(Exec(g, steps)) && Exec(g, steps).founder == g.founder
    decreases |steps|
  {
    if steps == [] {
    } else {
      ExecOk(g, steps[..|steps| - 1]);
      SameFounder(Exec(g, steps[..|steps| - 1]), steps[|steps| - 1]);
      ApplyOk(Exec(g, steps[..|steps| - 1]), steps[|steps| - 1]);
    }
  }

  /** At every node, after every run: the tables are sound, every member the node lists may read the
      group, and the founder may do everything. */
  lemma NoLockOut(founder: Key, cap: nat, isPrivate: bool, steps: seq<Step>, n: Key)
    requires n in Exec(Start(founder, cap, isPrivate), steps).nodes
    ensures var r := Exec(Start(founder, cap, isPrivate), steps).nodes[n];
            && r.me == n && r.founder == founder && SoundReplica(r)
            && (forall k <- r.members :: GROUP_READ in Permissions(r, k))
            && ALL_PERMS <= Permissions(r, founder)
  {
    var g := Start(founder, cap, isPrivate);
    assert NodeOk(g, founder, g.nodes[founder]);
    ExecOk(g, steps);
    var r := Exec(g, steps).nodes[n];
    assert NodeOk(Exec(g, steps), n, r);
    forall k | k in r.members
      ensures GROUP_READ in Permissions(r, k)
    {
      NobodyLockedOut(r, k);
    }
    NobodyLockedOut(r, founder);
  }

  // ---- the membership cap ----

  predicate Full(r: Replica) {
    r.cap > 0 && |r.members| == r.cap
  }

  predicate WithinCap(g: Net) {
    g.founder in g.nodes && (var r := g.nodes[g.founder]; r.cap > 0 ==> |r.members| <= r.cap)
  }

  /** The admissions that do not look at the cap: an approval, and news of one made elsewhere. */
  ghost predicate Crowds(g: Net, s: Step) {
    && g.founder in g.nodes && Full(g.nodes[g.founder])
    && match s
       case DoApprove(n, id) => n == g.founder && CanApprove(g.nodes[n], id)
       case DoDeliver(n, f) =>
         n == g.founder && f in g.frames && f.RosterAdd? && f.member != "" && f.member !in g.nodes[n].members
       case DoUpsert(_, _, _) => false
       case DoDelete(_, _) => false
       case DoAssign(_, _, _) => false
       case DoKick(_, _) => false
       case DoLeave(_) => false
       case DoJoin(_, _, _, _) => false
       case DoGrant(_) => false
       case DoSendRoster => false
       case DoTakeRoster(_, _) => false
  }

  lemma FewerMembers(a: set<Key>, k: Key)
    ensures |a - {k}| <= |a|
    ensures |a + {k}| == if k in a then |a| else |a| + 1
  {
    if k in a {
      assert a + {k} == a;
      assert a == (a - {k}) + {k};
    } else {
      assert a - {k} == a;
    }
  }

  lemma JoinCap(g: Net, n: Key, k: Key, id: nat, sealable: bool)
    requires NetOk(g) && WithinCap(g) && n in g.nodes
    ensures WithinCap(Join(g, n, k, id, sealable))
  {
    assert NodeOk(g, n, g.nodes[n]);
    FewerMembers(g.nodes[n].members, k);
  }

  lemma ApproveCapIff(g: Net, n: Key, id: nat)
    requires NetOk(g) && WithinCap(g) && n in g.nodes
    ensures WithinCap(Approve(g, n, id)) <==> !Crowds(g, DoApprove(n, id))
  {
    var r := g.nodes[n];
    assert NodeOk(g, n, r);
    if CanApprove(r, id) { FewerMembers(r.members, r.pending[id].joiner); }
  }

  lemma RemovalCap(g: Net, n: Key, k: Key)
    requires NetOk(g) && WithinCap(g) && n in g.nodes
    ensures WithinCap(Kick(g, n, k)) && WithinCap(Leave(g, n))
  {
    assert NodeOk(g, n, g.nodes[n]);
    FewerMembers(g.nodes[n].members, k);
  }

  /** No frame but a roster addition makes a member table longer. */
  lemma FrameShrinks(r: Replica, f: Frame)
    requires !f.RosterAdd?
    ensures |ApplyFrame(r, f).members| <= |r.members|
  {
    if f.Rotate? { FewerMembers(r.members, f.gone); }
  }

  lemma DeliverCapIff(g: Net, n: Key, f: Frame)
    requires NetOk(g) && WithinCap(g) && n in g.nodes && f in g.frames
    ensures WithinCap(Deliver(g, n, f)) <==> !Crowds(g, DoDeliver(n, f))
  {
    var r := g.nodes[n];
    assert NodeOk(g, n, r);
    FrameScope(r, f);
    if f.RosterAdd? {
      FewerMembers(r.members, f.member);
    } else {
      FrameShrinks(r, f);
    }
  }

  lemma OtherCap(g: Net, s: Step)
    requires NetOk(g) && WithinCap(g) && Enabled(g, s)
    requires s.DoUpsert? || s.DoDelete? || s.DoAssign? || s.DoGrant? || s.DoSendRoster? || s.DoTakeRoster?
    ensures WithinCap(Apply(g, s))
  {
    assert NodeOk(g, g.founder, g.nodes[g.founder]);
    if s.DoTakeRoster? || s.DoUpsert? || s.DoDelete? || s.DoAssign? { assert NodeOk(g, s.n, g.nodes[s.n]); }
  }

  /** A step takes the founder's member list past the cap exactly when it admits someone to a full group
      by another door than the join endpoint. */
  lemma StepCapIff(g: Net, s: Step)
    requires NetOk(g) && WithinCap(g)
    ensures WithinCap(Apply(g, s)) <==> !Crowds(g, s)
  {
    if Enabled(g, s) {
      match s
      case DoUpsert(_, _, _) => OtherCap(g, s);
      case DoDelete(_, _) => OtherCap(g, s);
      case DoAssign(_, _, _) => OtherCap(g, s);
      case DoKick(n, k) => RemovalCap(g, n, k);
      case DoLeave(n) => RemovalCap(g, n, n);
      case DoJoin(n, k, id, sealable) => JoinCap(g, n, k, id, sealable);
      case DoApprove(n, id) => ApproveCapIff(g, n, id);
      case DoGrant(_) => OtherCap(g, s);
      case DoDeliver(n, f) => DeliverCapIff(g, n, f);
      case DoSendRoster => OtherCap(g, s);
      case DoTakeRoster(_, _) => OtherCap(g, s);
    }
  }

  ghost predicate NeverCrowded(g: Net, steps: seq<Step>)
    decreases |steps|
  {
    steps == [] ||
    (NeverCrowded(g, steps[..|steps| - 1]) && !Crowds(Exec(g, steps[..|steps| - 1]), steps[|steps| - 1]))
  }

  ghost predicate AlwaysWithinCap(g: Net, steps: seq<Step>)
    decreases |steps|
  {
    WithinCap(Exec(g, steps)) && (steps == [] || AlwaysWithinCap(g, steps[..|steps| - 1]))
  }

  /** The cap is kept throughout a run exactly when no step of the run crowds a full group. */
  lemma {:induction false} RunCapIff(founder: Key, cap: nat, isPrivate: bool, steps: seq<Step>)
    ensures var g := Start(founder, cap, isPrivate); AlwaysWithinCap(g, steps) <==> NeverCrowded(g, steps)
    decreases |steps|
  {
    var g := Start(founder, cap, isPrivate);
    assert |{founder}| == 1;
    if steps == [] {
    } else {
      var before := steps[..|steps| - 1];
      RunCapIff(founder, cap, isPrivate, before);
      ExecOk(g, before);
      if AlwaysWithinCap(g, before) { StepCapIff(Exec(g, before), steps[|steps| - 1]); }
    }
  }

  /** Two requests parked while there was room for one, then both approved. */
  function CrowdingRun(founder: Key, a: Key, b: Key): seq<Step> {
    [DoJoin(founder, a, 0, true), DoJoin(founder, b, 1, true), DoApprove(founder, 0), DoApprove(founder, 1)]
  }

  lemma FounderApproves(r: Replica)
    requires SoundReplica(r)
    ensures May(r, r.founder, GROUP_APPROVE)
  {
    NobodyLockedOut(r, r.founder);
    assert GROUP_APPROVE in ALL_PERMS;
  }

  lemma Parked(g: Net, k: Key, id: nat)
    requires g.founder in g.nodes
    requires var r := g.nodes[g.founder]; r.me == g.founder && r.isPrivate && CanJoin(r, k) && id !in r.pending
    ensures var r := g.nodes[g.founder];
            Apply(g, DoJoin(g.founder, k, id, true)) == Put(g, r.(pending := r.pending[id := Request(k, true, Waiting)]))
  {
  }

  lemma Admitted(g: Net, id: nat)
    requires g.founder in g.nodes
    requires var r := g.nodes[g.founder];
             && r.me == g.founder && r.founder == g.founder && SoundReplica(r)
             && id in r.pending && r.pending[id].state == Waiting && r.pending[id].joiner !in r.members
    ensures var r, h := g.nodes[g.founder], Apply(g, DoApprove(g.founder, id));
            && h.founder == g.founder && h.founder in h.nodes
            && h.nodes[g.founder] == AdmitWithKey(r, r.pending[id].joiner, r.pending[id].sealable).(
                 pending := r.pending[id := r.pending[id].(state := Approved)],
                 symkey := KeyFor(r, r.pending[id].sealable, g.minted))
  {
    FounderApproves(g.nodes[g.founder]);
  }

  /** A private group of at most two can come to have three members. */
  lemma CapExceeded(founder: Key, a: Key, b: Key)
    requires founder != a && founder != b && a != b
    ensures !WithinCap(Exec(Start(founder, 2, true), CrowdingRun(founder, a, b)))
  {
    var g0 := Start(founder, 2, true);
    assert |g0.nodes[founder].members| == 1;
    Parked(g0, a, 0);
    var g1 := Apply(g0, DoJoin(founder, a, 0, true));
    Parked(g1, b, 1);
    var g2 := Apply(g1, DoJoin(founder, b, 1, true));
    Admitted(g2, 0);
    var g3 := Apply(g2, DoApprove(founder, 0));
    AdmitSound(g2.nodes[founder], a);
    Admitted(g3, 1);
    assert Apply(g3, DoApprove(founder, 1)).nodes[founder].members == {founder, a, b};
    RunsTo(g0, CrowdingRun(founder, a, b), g1, g2, g3);
  }

  lemma RunsTo(g: Net, steps: seq<Step>, g1: Net, g2: Net, g3: Net)
    requires |steps| == 4 && g1 == Apply(g, steps[0]) && g2 == Apply(g1, steps[1]) && g3 == Apply(g2, steps[2])
    ensures Exec(g, steps) == Apply(g3, steps[3])
  {
    assert Exec(g, []) == g;
    assert steps[..1][..0] == [] && steps[..2][..1] == steps[..1] && steps[..3][..2] == steps[..2];
    assert Exec(g, steps[..1]) == g1;
    assert Exec(g, steps[..2]) == g2;
    assert Exec(g, steps[..3]) == g3;
  }

  // ---- the group key ----

  /** How a node can have come by a key that a rotation minted: it rotated, the key was sealed to it, or an
      admission brought the key. */
  ghost predicate Excused(g: Net, n: Key, key: nat) {
    key in g.removed ==>
      || g.removed[key].rotator == n || n in g.removed[key].sealedTo
      || (exists a <- g.grants :: a.joiner == n && a.symkey == Some(key))
  }

  ghost predicate KeysOk(g: Net) {
    && (forall n <- g.nodes :: g.nodes[n].me == n && (g.nodes[n].symkey.Some? ==> g.nodes[n].symkey.value < g.minted))
    && (forall a <- g.grants :: a.symkey.Some? ==> a.symkey.value < g.minted)
    && (forall f <- g.frames :: f.Rotate? ==>
          f.symkey < g.minted && f.symkey in g.removed && g.removed[f.symkey].sealedTo == f.recipients)
    && (forall key <- g.removed :: key < g.minted && g.removed[key].gone !in g.removed[key].sealedTo)
  }

  ghost predicate Secret(g: Net) {
    forall n <- g.nodes :: g.nodes[n].symkey.Some? ==> Excused(g, n, g.nodes[n].symkey.value)
  }

  lemma RotateKeys(g: Net, r: Replica, gone: Key)
    requires KeysOk(g) && Secret(g)
    ensures var h := RotateKey(g, r, gone); KeysOk(h) && Secret(h)
  {
    var h := RotateKey(g, r, gone);
    forall n | n in h.nodes && h.nodes[n].symkey.Some?
      ensures Excused(h, n, h.nodes[n].symkey.value)
    {
      if n != r.me { assert Excused(g, n, g.nodes[n].symkey.value); }
    }
  }

  lemma IssueKeys(g: Net, r: Replica, k: Key, sealable: bool)
    requires KeysOk(g) && Secret(g) && r.me in g.nodes && r.symkey == g.nodes[r.me].symkey
    ensures var h := IssueGrant(g, r, k, sealable); KeysOk(h) && Secret(h)
  {
    var h := IssueGrant(g, r, k, sealable);
    forall n | n in h.nodes && h.nodes[n].symkey.Some?
      ensures Excused(h, n, h.nodes[n].symkey.value)
    {
      if n in g.nodes && g.nodes[n].symkey.Some? { assert Excused(g, n, g.nodes[n].symkey.value); }
    }
  }

  /** Rewriting one node's rows, with a key it already had. */
  lemma SameKey(g: Net, h: Net, n: Key)
    requires KeysOk(g) && Secret(g) && n in g.nodes && n in h.nodes
    requires h.nodes == g.nodes[n := h.nodes[n]] && h.nodes[n].me == n && h.nodes[n].symkey == g.nodes[n].symkey
    requires h.grants == g.grants && h.minted == g.minted && h.removed == g.removed
    requires forall f <- h.frames :: f.Rotate? ==> f in g.frames
    ensures KeysOk(h) && Secret(h)
  {
    forall m | m in h.nodes && h.nodes[m].symkey.Some?
      ensures Excused(h, m, h.nodes[m].symkey.value)
    {
      assert Excused(g, m, g.nodes[m].symkey.value);
    }
  }

  lemma DeliverKeys(g: Net, n: Key, f: Frame)
    requires KeysOk(g) && Secret(g) && n in g.nodes && f in g.frames
    ensures var h := Deliver(g, n, f); KeysOk(h) && Secret(h)
  {
    var r, h := g.nodes[n], Deliver(g, n, f);
    if f.Rotate? && Authorized(r, f) && n in f.recipients {
      forall m | m in h.nodes && h.nodes[m].symkey.Some?
        ensures Excused(h, m, h.nodes[m].symkey.value)
      {
        if m != n { assert Excused(g, m, g.nodes[m].symkey.value); }
      }
    } else {
      SameKey(g, h, n);
    }
  }

  lemma GrantKeys(g: Net, a: Grant)
    requires KeysOk(g) && Secret(g) && a in g.grants
    ensures var h := ReceiveGrant(g, a); KeysOk(h) && Secret(h)
  {
    var h := ReceiveGrant(g, a);
    if a.joiner in g.nodes {
      SameKey(g, h, a.joiner);
    } else {
      forall m | m in h.nodes && h.nodes[m].symkey.Some?
        ensures Excused(h, m, h.nodes[m].symkey.value)
      {
        if m != a.joiner { assert Excused(g, m, g.nodes[m].symkey.value); }
      }
    }
  }

  lemma RoleKeys(g: Net, s: Step)
    requires KeysOk(g) && Secret(g) && Enabled(g, s) && (s.DoUpsert? || s.DoDelete? || s.DoAssign?)
    ensures KeysOk(Apply(g, s)) && Secret(Apply(g, s))
  {
    SameKey(g, Apply(g, s), s.n);
  }

  lemma AdmissionKeys(g: Net, s: Step)
    requires KeysOk(g) && Secret(g) && Enabled(g, s) && (s.DoJoin? || s.DoApprove?)
    ensures KeysOk(Apply(g, s)) && Secret(Apply(g, s))
  {
    var r := g.nodes[s.n];
    match s
    case DoJoin(n, k, id, sealable) =>
      if CanJoin(r, k) && !r.isPrivate {
        IssueKeys(g, r, k, sealable);
      } else {
        SameKey(g, Apply(g, s), n);
      }
    case DoApprove(n, id) =>
      if CanApprove(r, id) {
        var q := r.pending[id];
        IssueKeys(g, r.(pending := r.pending[id := q.(state := Approved)]), q.joiner, q.sealable);
      }
  }

  lemma ApplyKeys(g: Net, s: Step)
    requires KeysOk(g) && Secret(g)
    ensures KeysOk(Apply(g, s)) && Secret(Apply(g, s))
  {
    if Enabled(g, s) {
      match s
      case DoUpsert(_, _, _) => RoleKeys(g, s);
      case DoDelete(_, _) => RoleKeys(g, s);
      case DoAssign(_, _, _) => RoleKeys(g, s);
      case DoKick(n, k) => RotateKeys(g, Without(g.nodes[n], k), k);
      case DoLeave(n) => RotateKeys(g, Without(g.nodes[n], n), n);
      case DoJoin(_, _, _, _) => AdmissionKeys(g, s);
      case DoApprove(_, _) => AdmissionKeys(g, s);
      case DoGrant(a) => GrantKeys(g, a);
      case DoDeliver(n, f) => DeliverKeys(g, n, f);
      case DoSendRoster => SameKey(g, Apply(g, s), g.founder);
      case DoTakeRoster(n, _) => SameKey(g, Apply(g, s), n);
    }
  }

  lemma {:induction false} ExecKeys(founder: Key, cap: nat, isPrivate: bool, steps: seq<Step>)
    ensures var g := Exec(Start(founder, cap, isPrivate), steps); KeysOk(g) && Secret(g)
    decreases |steps|
  {
    if steps == [] {
    } else {
      ExecKeys(founder, cap, isPrivate, steps[..|steps| - 1]);
      ApplyKeys(Exec(Start(founder, cap, isPrivate), steps[..|steps| - 1]), steps[|steps| - 1]);
    }
  }

  /** In every run a node holds a key that a rotation minted only if it rotated, the key was sealed to it, or
      a grant to it carried the key. */
  lemma KeyHolders(founder: Key, cap: nat, isPrivate: bool, steps: seq<Step>, n: Key, key: nat)
    requires var g := Exec(Start(founder, cap, isPrivate), steps);
             n in g.nodes && g.nodes[n].symkey == Some(key) && key in g.removed
    ensures Excused(Exec(Start(founder, cap, isPrivate), steps), n, key)
  {
    ExecKeys(founder, cap, isPrivate, steps);
  }

  /** In no run does a kicked node come to hold the key its kick minted, unless it was admitted again and
      its grant carried that key. */
  lemma KickedStaysOut(founder: Key, cap: nat, isPrivate: bool, steps: seq<Step>, n: Key, key: nat)
    requires var g := Exec(Start(founder, cap, isPrivate), steps);
             && n in g.nodes && g.nodes[n].symkey == Some(key)
             && key in g.removed && g.removed[key].gone == n && g.removed[key].rotator != n
    ensures exists a <- Exec(Start(founder, cap, isPrivate), steps).grants :: a.joiner == n && a.symkey == Some(key)
  {
    ExecKeys(founder, cap, isPrivate, steps);
    KeyHolders(founder, cap, isPrivate, steps, n, key);
  }

  // ---- whom a rotation reaches ----

  ghost function Removing(g: Net, n: Key, gone: Key): Net
    requires n in g.nodes
  {
    if gone == n then Leave(g, n) else Kick(g, n, gone)
  }

  ghost predicate CanRemove(g: Net, n: Key, gone: Key) {
    n in g.nodes && if gone == n then CanLeave(g.nodes[n]) else CanKick(g.nodes[n], gone)
  }

  /** Keys to seal to are on a node's own row and on the rows of those it admitted, and nobody admits the
      founder; rotations are sealed to no others. */
  ghost predicate SealsOk(g: Net) {
    && (forall n <- g.nodes, k <- g.nodes[n].sealable :: k in g.nodes[n].members && (k == n || (n, k) in g.admitted))
    && (forall a <- g.admitted :: a.1 != g.founder)
    && (forall f <- g.frames :: f.Rotate? ==> forall k <- f.recipients :: (f.sender, k) in g.admitted)
  }

  lemma SealsPut(g: Net, h: Net, n: Key, r: Replica)
    requires SealsOk(g) && h.nodes == g.nodes[n := r] && h.founder == g.founder && g.admitted <= h.admitted
    requires forall k <- r.sealable :: k in r.members && (k == n || (n, k) in h.admitted)
    requires forall a <- h.admitted :: a in g.admitted || a.1 != g.founder
    requires forall f <- h.frames :: f in g.frames || (f.Rotate? ==> forall k <- f.recipients :: (f.sender, k) in h.admitted)
    ensures SealsOk(h)
  {
  }

  lemma RotateSeals(g: Net, n: Key, gone: Key)
    requires NetOk(g) && SealsOk(g) && n in g.nodes
    ensures SealsOk(RotateKey(g, Without(g.nodes[n], gone), gone))
  {
    assert NodeOk(g, n, g.nodes[n]);
    var r := Without(g.nodes[n], gone);
    SealsPut(g, RotateKey(g, r, gone), n, r.(symkey := Some(g.minted)));
  }

  lemma IssueSeals(g: Net, r: Replica, k: Key, sealable: bool)
    requires NetOk(g) && SealsOk(g) && r.me in g.nodes && k != g.founder
    requires r.members == g.nodes[r.me].members && r.sealable == g.nodes[r.me].sealable
    ensures SealsOk(IssueGrant(g, r, k, sealable))
  {
    var h := IssueGrant(g, r, k, sealable);
    SealsPut(g, h, r.me, h.nodes[r.me]);
  }

  lemma AdmissionSeals(g: Net, s: Step)
    requires NetOk(g) && SealsOk(g) && Enabled(g, s) && (s.DoJoin? || s.DoApprove?)
    ensures SealsOk(Apply(g, s))
  {
    var r := g.nodes[s.n];
    assert NodeOk(g, s.n, r);
    match s
    case DoJoin(n, k, id, sealable) =>
      if CanJoin(r, k) {
        if !r.isPrivate {
          IssueSeals(g, r, k, sealable);
        } else if id !in r.pending {
          SealsPut(g, Apply(g, s), n, r.(pending := r.pending[id := Request(k, sealable, Waiting)]));
        }
      }
    case DoApprove(n, id) =>
      if CanApprove(r, id) {
        var q := r.pending[id];
        IssueSeals(g, r.(pending := r.pending[id := q.(state := Approved)]), q.joiner, q.sealable);
      }
  }

  lemma RoleSeals(g: Net, s: Step)
    requires NetOk(g) && SealsOk(g) && Enabled(g, s) && (s.DoUpsert? || s.DoDelete? || s.DoAssign?)
    ensures SealsOk(Apply(g, s))
  {
    var h := Apply(g, s);
    assert NodeOk(g, s.n, g.nodes[s.n]);
    SealsPut(g, h, s.n, h.nodes[s.n]);
  }

  lemma FrameSeals(r: Replica, f: Frame)
    requires r.sealable <= r.members
    ensures ApplyFrame(r, f).sealable <= r.sealable && ApplyFrame(r, f).sealable <= ApplyFrame(r, f).members
  {
  }

  lemma DeliverSeals(g: Net, n: Key, f: Frame)
    requires NetOk(g) && SealsOk(g) && n in g.nodes && f in g.frames
    ensures SealsOk(Deliver(g, n, f))
  {
    var r := g.nodes[n];
    assert NodeOk(g, n, r);
    FrameSeals(r, f);
    FrameScope(r, f);
    SealsPut(g, Deliver(g, n, f), n, ApplyFrame(r, f));
  }

  lemma GrantSeals(g: Net, a: Grant)
    requires NetOk(g) && SealsOk(g) && a in g.grants
    ensures SealsOk(ReceiveGrant(g, a))
  {
    var h := ReceiveGrant(g, a);
    if a.joiner in g.nodes { assert NodeOk(g, a.joiner, g.nodes[a.joiner]); }
    SealsPut(g, h, a.joiner, h.nodes[a.joiner]);
  }

  lemma SendRosterSeals(g: Net)
    requires NetOk(g) && SealsOk(g)
    ensures SealsOk(SendRoster(g))
  {
    SealsPut(g, SendRoster(g), g.founder, g.nodes[g.founder]);
  }

  lemma TakeRosterSeals(g: Net, n: Key, roster: Roster)
    requires NetOk(g) && SealsOk(g) && n in g.nodes && roster in g.rosters
    ensures SealsOk(TakeRoster(g, n, roster))
  {
    var h := TakeRoster(g, n, roster);
    assert NodeOk(g, n, g.nodes[n]);
    SealsPut(g, h, n, h.nodes[n]);
  }

  lemma ApplySeals(g: Net, s: Step)
    requires NetOk(g) && SealsOk(g)
    ensures SealsOk(Apply(g, s))
  {
    if Enabled(g, s) {
      match s
      case DoUpsert(_, _, _) => RoleSeals(g, s);
      case DoDelete(_, _) => RoleSeals(g, s);
      case DoAssign(_, _, _) => RoleSeals(g, s);
      case DoKick(n, k) => RotateSeals(g, n, k);
      case DoLeave(n) => RotateSeals(g, n, n);
      case DoJoin(_, _, _, _) => AdmissionSeals(g, s);
      case DoApprove(_, _) => AdmissionSeals(g, s);
      case DoGrant(a) => GrantSeals(g, a);
      case DoDeliver(n, f) => DeliverSeals(g, n, f);
      case DoSendRoster => SendRosterSeals(g);
      case DoTakeRoster(n, roster) => TakeRosterSeals(g, n, roster);
    }
  }

  lemma {:induction false} ExecSeals(founder: Key, cap: nat, isPrivate: bool, steps: seq<Step>)
    ensures var g := Exec(Start(founder, cap, isPrivate), steps); NetOk(g) && SealsOk(g) && g.founder == founder
    decreases |steps|
  {
    var g := Start(founder, cap, isPrivate);
    assert NodeOk(g, founder, g.nodes[founder]);
    ExecOk(g, steps);
    if steps == [] {
    } else {
      ExecSeals(founder, cap, isPrivate, steps[..|steps| - 1]);
      ApplySeals(Exec(g, steps[..|steps| - 1]), steps[|steps| - 1]);
    }
  }

  /** In every run a rotation is sealed only to members that the rotating node itself admitted; so it never
      re-keys the founder unless the founder rotates. */
  lemma SealedToAdmitted(founder: Key, cap: nat, isPrivate: bool, steps: seq<Step>, f: Frame)
    requires f in Exec(Start(founder, cap, isPrivate), steps).frames && f.Rotate?
    ensures forall k <- f.recipients :: (f.sender, k) in Exec(Start(founder, cap, isPrivate), steps).admitted
    ensures founder !in f.recipients
  {
    ExecSeals(founder, cap, isPrivate, steps);
  }

  /** The key of a rotation reaches any other node that accepts the frame exactly when the rotating node
      lists it and has a key to seal to from admitting it; a kick it has not heard of does not count. */
  lemma NextKeyReachesIff(g: Net, n: Key, gone: Key, p: Key)
    requires NetOk(g) && KeysOk(g) && CanRemove(g, n, gone) && p in g.nodes && p != n && p != gone
    ensures var h, f := Removing(g, n, gone), Rotate(n, gone, SealsTo(g.nodes[n], gone), g.minted);
            && f in h.frames && p in h.nodes
            && (Authorized(g.nodes[p], f) ==>
                  (Deliver(h, p, f).nodes[p].symkey == Some(g.minted) <==>
                     p in g.nodes[n].members && p in g.nodes[n].sealable))
  {
    assert NodeOk(g, n, g.nodes[n]) && NodeOk(g, p, g.nodes[p]);
    assert SealsTo(Without(g.nodes[n], gone), gone) == SealsTo(g.nodes[n], gone);
    var h, f := Removing(g, n, gone), Rotate(n, gone, SealsTo(g.nodes[n], gone), g.minted);
    assert f in h.frames && h.nodes[p] == g.nodes[p];
    if Authorized(g.nodes[p], f) { RotateReaches(g.nodes[p], f, g.minted); }
  }

  lemma RotateReaches(r: Replica, f: Frame, minted: nat)
    requires f.Rotate? && f.symkey == minted && Authorized(r, f) && r.symkey != Some(minted)
    ensures ApplyFrame(r, f).symkey == Some(minted) <==> r.me in f.recipients
  {
  }

  /** In every run: a rotation is sealed to every member that remains exactly when the rotating node admitted
      each of them itself, and still has the key it was given then. Unless the node is the founder, that
      never happens, for the founder remains. */
  lemma RekeysAllIff(founder: Key, cap: nat, isPrivate: bool, steps: seq<Step>, n: Key, gone: Key)
    requires CanRemove(Exec(Start(founder, cap, isPrivate), steps), n, gone)
    ensures var g := Exec(Start(founder, cap, isPrivate), steps);
            var r, remaining := g.nodes[n], g.nodes[n].members - {n, gone};
            && g.minted in Removing(g, n, gone).removed
            && (Removing(g, n, gone).removed[g.minted].sealedTo == remaining <==> remaining <= r.sealable)
            && (forall k <- remaining * r.sealable :: (n, k) in g.admitted)
            && (n != founder ==> founder in remaining && Removing(g, n, gone).removed[g.minted].sealedTo != remaining)
  {
    ExecSeals(founder, cap, isPrivate, steps);
    var g := Exec(Start(founder, cap, isPrivate), steps);
    assert NodeOk(g, n, g.nodes[n]);
    assert SealsTo(Without(g.nodes[n], gone), gone) == SealsTo(g.nodes[n], gone);
  }

  /** In every run, a node that admitted nobody re-keys nobody when it leaves. */
  lemma PlainLeaveRekeysNobody(founder: Key, cap: nat, isPrivate: bool, steps: seq<Step>, n: Key)
    requires CanRemove(Exec(Start(founder, cap, isPrivate), steps), n, n)
    requires forall a <- Exec(Start(founder, cap, isPrivate), steps).admitted :: a.0 != n
    ensures var g := Exec(Start(founder, cap, isPrivate), steps);
            && g.minted in Leave(g, n).removed && Leave(g, n).removed[g.minted].sealedTo == {}
            && founder in g.nodes[n].members && founder != n
  {
    ExecSeals(founder, cap, isPrivate, steps);
    var g := Exec(Start(founder, cap, isPrivate), steps);
    assert NodeOk(g, n, g.nodes[n]);
  }

  // ---- a kicked node that receives a later key ----

  ghost predicate Reachable(founder: Key, g: Net) {
    exists steps :: Exec(Start(founder, 0, false), steps) == g
  }

  lemma Reach(founder: Key, g: Net, s: Step)
    requires Reachable(founder, g)
    ensures Reachable(founder, Apply(g, s))
  {
    var steps :| Exec(Start(founder, 0, false), steps) == g;
    assert (steps + [s])[..|steps|] == steps;
    assert Exec(Start(founder, 0, false), steps + [s]) == Apply(g, s);
  }

  lemma ReachableOk(founder: Key, g: Net)
    requires Reachable(founder, g)
    ensures NetOk(g) && KeysOk(g) && g.founder == founder
  {
    var steps :| Exec(Start(founder, 0, false), steps) == g;
    ExecSeals(founder, 0, false, steps);
    ExecKeys(founder, 0, false, steps);
  }

  lemma FounderMay(g: Net, p: Perm)
    requires NetOk(g) && p in ALL_PERMS
    ensures May(g.nodes[g.founder], g.founder, p)
  {
    assert NodeOk(g, g.founder, g.nodes[g.founder]);
    NobodyLockedOut(g.nodes[g.founder], g.founder);
  }

  /** The founder has admitted `b`, which has not had its grant. */
  predicate Admitted1(g: Net, founder: Key, b: Key) {
    && g.founder == founder && g.nodes.Keys == {founder} && g.nodes[founder].members == {founder, b}
    && g.minted == 1 && g.grants == {Grant(b, false, Some(0))} && g.admitted == {(founder, b)}
  }

  lemma ReachAdmitted1(founder: Key, b: Key) returns (h: Net)
    requires founder != b
    ensures Reachable(founder, h) && Admitted1(h, founder, b)
  {
    var g := Start(founder, 0, false);
    assert Exec(g, []) == g;
    Reach(founder, g, DoJoin(founder, b, 0, true));
    h := Apply(g, DoJoin(founder, b, 0, true));
  }

  /** Now `b` has its tables and key 0. */
  predicate OneIn(g: Net, founder: Key, b: Key) {
    && g.nodes.Keys == {founder, b} && g.nodes[founder].members == {founder, b} && OpenTables(g.nodes[b], founder, b)
    && g.minted == 1 && g.grants == {Grant(b, false, Some(0))} && g.admitted == {(founder, b)}
  }

  predicate OpenTables(r: Replica, founder: Key, b: Key) {
    && r.me == b && r.members == {founder, b} && r.roles == DEFAULT_ROLES
    && !r.isPrivate && r.cap == 0 && r.symkey == Some(0)
  }

  lemma ReachOneIn(founder: Key, b: Key) returns (h: Net)
    requires founder != b
    ensures Reachable(founder, h) && OneIn(h, founder, b)
  {
    var g := ReachAdmitted1(founder, b);
    Reach(founder, g, DoGrant(Grant(b, false, Some(0))));
    h := ReceiveGrant(g, Grant(b, false, Some(0)));
    assert h.nodes[b] == TakeGrant(Bootstrap(b, founder, false, Some(0)));
  }

  /** A plain member leaves: the key it mints goes to nobody, though the founder remains. */
  lemma LeaverRekeysNobody(founder: Key, b: Key) returns (steps: seq<Step>)
    requires founder != b
    ensures var g := Exec(Start(founder, 0, false), steps);
            && CanRemove(g, b, b) && g.minted in Leave(g, b).removed && Leave(g, b).removed[g.minted].sealedTo == {}
            && founder in g.nodes[b].members
  {
    var g := ReachOneIn(founder, b);
    ReachableOk(founder, g);
    assert NodeOk(g, b, g.nodes[b]);
    steps :| Exec(Start(founder, 0, false), steps) == g;
    PlainLeaveRekeysNobody(founder, 0, false, steps, b);
  }

  /** The founder makes `b` an admin. */
  lemma ReachAssigned(founder: Key, g: Net, b: Key) returns (h: Net)
    requires Reachable(founder, g) && OneIn(g, founder, b) && founder != b
    ensures Reachable(founder, h) && OneIn(h, founder, b) && RolesAssign(founder, b, {ADMIN} + {MEMBER}) in h.frames
  {
    ReachableOk(founder, g);
    FounderMay(g, ROLE_ASSIGN);
    assert NodeOk(g, founder, g.nodes[founder]);
    Reach(founder, g, DoAssign(founder, b, {ADMIN}));
    h := AssignRoles(g, founder, b, {ADMIN});
  }

  lemma TakesAssignment(r: Replica, founder: Key, b: Key)
    requires OpenTables(r, founder, b) && r.founder == founder && SoundReplica(r) && founder != b && b != ""
    ensures var h := ApplyFrame(r, RolesAssign(founder, b, {ADMIN} + {MEMBER}));
            OpenTables(h, founder, b) && May(h, b, "group:invite")
  {
    NobodyLockedOut(r, founder);
    assert ROLE_ASSIGN in ALL_PERMS;
    assert May(r, founder, ROLE_ASSIGN);
    var h := ApplyFrame(r, RolesAssign(founder, b, {ADMIN} + {MEMBER}));
    assert (b, ADMIN) in h.holdings && "group:invite" in h.roles[ADMIN];
  }

  /** And `b` hears of it: now it may invite. */
  lemma ReachAdmin(founder: Key, g: Net, b: Key) returns (h: Net)
    requires Reachable(founder, g) && OneIn(g, founder, b) && founder != b && b != ""
    requires RolesAssign(founder, b, {ADMIN} + {MEMBER}) in g.frames
    ensures Reachable(founder, h) && OneIn(h, founder, b) && May(h.nodes[b], b, "group:invite")
  {
    ReachableOk(founder, g);
    assert NodeOk(g, b, g.nodes[b]);
    var f := RolesAssign(founder, b, {ADMIN} + {MEMBER});
    TakesAssignment(g.nodes[b], founder, b);
    Reach(founder, g, DoDeliver(b, f));
    h := Deliver(g, b, f);
  }

  /** `b` has admitted `a`. */
  predicate Admitted2(g: Net, founder: Key, a: Key, b: Key) {
    && g.nodes.Keys == {founder, b} && a in g.nodes[b].members && b in g.nodes[b].members && a in g.nodes[b].sealable
    && RosterAdd(b, a) in g.frames && g.grants == {Grant(b, false, Some(0)), Grant(a, false, Some(0))}
  }

  lemma ReachAdmitted2(founder: Key, g: Net, a: Key, b: Key) returns (h: Net)
    requires Reachable(founder, g) && OneIn(g, founder, b) && a != founder && a != b
    ensures Reachable(founder, h) && Admitted2(h, founder, a, b)
  {
    Reach(founder, g, DoJoin(b, a, 0, true));
    h := Join(g, b, a, 0, true);
    assert h == IssueGrant(g, g.nodes[b], a, true);
  }

  /** `a` has its tables, and the founder has heard of it. */
  predicate BothIn(g: Net, founder: Key, a: Key, b: Key) {
    && {founder, a, b} <= g.nodes.Keys && a in g.nodes[founder].members
    && a in g.nodes[b].members && a in g.nodes[b].sealable && b in g.nodes[b].members
    && g.grants == {Grant(b, false, Some(0)), Grant(a, false, Some(0))}
  }

  lemma ReachBothIn(founder: Key, g: Net, a: Key, b: Key) returns (h: Net)
    requires Reachable(founder, g) && Admitted2(g, founder, a, b) && a != "" && a != founder && a != b && founder != b
    ensures Reachable(founder, h) && BothIn(h, founder, a, b)
  {
    ReachableOk(founder, g);
    assert NodeOk(g, founder, g.nodes[founder]);
    Reach(founder, g, DoGrant(Grant(a, false, Some(0))));
    var k := ReceiveGrant(g, Grant(a, false, Some(0)));
    Reach(founder, k, DoDeliver(founder, RosterAdd(b, a)));
    h := Deliver(k, founder, RosterAdd(b, a));
  }

  /** The founder kicks `a`, and `b` has not heard of it. */
  lemma ReachKicked(founder: Key, g: Net, a: Key, b: Key) returns (h: Net)
    requires Reachable(founder, g) && BothIn(g, founder, a, b) && founder != a && founder != b && a != b
    ensures Reachable(founder, h) && CanRemove(h, b, b) && a in h.nodes && h.grants == g.grants
    ensures a in h.nodes[b].members && a in h.nodes[b].sealable
    ensures h.minted > 0 && h.minted - 1 in h.removed
    ensures h.removed[h.minted - 1].gone == a && h.removed[h.minted - 1].rotator == founder
  {
    ReachableOk(founder, g);
    FounderMay(g, MEMBER_KICK);
    assert NodeOk(g, founder, g.nodes[founder]) && NodeOk(g, b, g.nodes[b]);
    Reach(founder, g, DoKick(founder, a));
    h := Kick(g, founder, a);
  }

  /** `b` leaves, and seals its key to `a`. */
  /** What `b` leaving does: a fresh key, sealed to those in its tables, and a frame that says so. */
  lemma LeftFacts(g: Net, a: Key, b: Key)
    requires NetOk(g) && CanRemove(g, b, b) && a in g.nodes && a != b
    requires a in g.nodes[b].members && a in g.nodes[b].sealable
    ensures var k, to := Leave(g, b), SealsTo(g.nodes[b], b);
            && k.nodes == g.nodes[b := k.nodes[b]] && Rotate(b, b, to, g.minted) in k.frames && a in to
            && k.grants == g.grants && k.removed.Keys == g.removed.Keys + {g.minted} && k.removed[g.minted].sealedTo == to
            && forall key <- g.removed :: key != g.minted ==> k.removed[key] == g.removed[key]
  {
    assert NodeOk(g, b, g.nodes[b]);
    assert SealsTo(Without(g.nodes[b], b), b) == SealsTo(g.nodes[b], b);
  }

  lemma ReachRotated(founder: Key, g: Net, a: Key, b: Key, to: set<Key>, minted: nat) returns (h: Net)
    requires Reachable(founder, g) && a in g.nodes && b != "" && b != a && a in to && Rotate(b, b, to, minted) in g.frames
    ensures Reachable(founder, h) && h.nodes.Keys == g.nodes.Keys && h.nodes[a].symkey == Some(minted)
    ensures h.grants == g.grants && h.removed == g.removed
  {
    ReachableOk(founder, g);
    assert NodeOk(g, a, g.nodes[a]);
    var f := Rotate(b, b, to, minted);
    Reach(founder, g, DoDeliver(a, f));
    h := Deliver(g, a, f);
  }

  lemma ReachLeft(founder: Key, g: Net, a: Key, b: Key) returns (h: Net)
    requires Reachable(founder, g) && CanRemove(g, b, b) && a in g.nodes && a != b && b != ""
    requires a in g.nodes[b].members && a in g.nodes[b].sealable
    ensures Reachable(founder, h) && a in h.nodes && h.nodes[a].symkey == Some(g.minted)
    ensures h.grants == g.grants && g.minted in h.removed && a in h.removed[g.minted].sealedTo
    ensures forall key <- g.removed :: key in h.removed && h.removed[key] == g.removed[key]
  {
    ReachableOk(founder, g);
    LeftFacts(g, a, b);
    Reach(founder, g, DoLeave(b));
    h := ReachRotated(founder, Leave(g, b), a, b, SealsTo(g.nodes[b], b), g.minted);
  }

  /** In some run a kicked node comes to hold a key minted after its kick, although it was not admitted
      again: sealed to it by the admin that had admitted it and had not heard of the kick. */
  lemma KickedReceivesLaterKey(founder: Key, a: Key, b: Key) returns (steps: seq<Step>, key: nat)
    requires founder != a && founder != b && a != b && a != "" && b != ""
    ensures var g := Exec(Start(founder, 0, false), steps);
            && a in g.nodes && key in g.removed && g.removed[key].gone == a && g.removed[key].rotator == founder
            && g.nodes[a].symkey.Some? && g.nodes[a].symkey.value > key
            && g.nodes[a].symkey.value in g.removed && a in g.removed[g.nodes[a].symkey.value].sealedTo
            && g.grants == {Grant(b, false, Some(0)), Grant(a, false, Some(0))}
  {
    var g := ReachOneIn(founder, b);
    g := ReachAssigned(founder, g, b);
    g := ReachAdmin(founder, g, b);
    g := ReachAdmitted2(founder, g, a, b);
    g := ReachBothIn(founder, g, a, b);
    g := ReachKicked(founder, g, a, b);
    key := g.minted - 1;
    var h := ReachLeft(founder, g, a, b);
    steps :| Exec(Start(founder, 0, false), steps) == h;
  }

  /** Of the node that was removed, the rotating node ends up with the new key: after a leave the leaver
      holds it, after a kick the removed node's tables are untouched. */
  lemma RemovedHoldsNewKeyIff(g: Net, n: Key, k: Key)
    requires NetOk(g) && KeysOk(g) && k in g.nodes && CanRemove(g, n, k)
    ensures var h := Removing(g, n, k);
            k in h.nodes && (h.nodes[k].symkey == Some(g.minted) <==> k == n)
  {
    assert NodeOk(g, n, g.nodes[n]);
  }
}
