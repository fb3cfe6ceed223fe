/** What the group handlers do to who may do what: permissions after an assignment, a role change, an
    admission, a removal and a refresh, and that a frame does elsewhere what its endpoint did at home. */
module GroupEffects {
  import opened Wrappers
  import opened Groups
  import opened GroupNet
  import opened GroupTheorems

  /** Whether one of these roles grants the permission. */
  ghost predicate Grants(r: Replica, names: set<RoleName>, p: Perm) {
    exists n :: n in names && n in r.roles && p in r.roles[n]
  }

  // ---- assigning roles ----

  /** Assigning takes away what is not named: the member holds exactly the named roles, and everybody else
      what they held. */
  lemma WithRolesHolds(r: Replica, k: Key, names: set<RoleName>, m: Key, n: RoleName)
    ensures (m, n) in WithRoles(r, k, names).holdings <==> if m == k then n in names else (m, n) in r.holdings
  {
  }

  lemma WithRolesMay(r: Replica, k: Key, names: set<RoleName>, m: Key, p: Perm)
    ensures May(WithRoles(r, k, names), m, p) <==> if m == k then Grants(r, names, p) else May(r, m, p)
  {
    var s := WithRoles(r, k, names);
    if m == k && Grants(r, names, p) {
      var n :| n in names && n in r.roles && p in r.roles[n];
      assert (k, n) in s.holdings;
    }
    if m != k && May(r, m, p) {
      var n :| n in r.roles && (m, n) in r.holdings && p in r.roles[n];
      assert (m, n) in s.holdings;
    }
  }

  /** The endpoint: afterwards the member holds the requested roles and the baseline and no other, may do
      what one of them grants and nothing else, and nobody else's assignments have changed. */
  lemma AssignMeans(g: Net, n: Key, k: Key, names: set<RoleName>, m: Key, role: RoleName, p: Perm)
    requires NetOk(g) && n in g.nodes && CanAssign(g.nodes[n], k, names)
    ensures var was, now := g.nodes[n], AssignRoles(g, n, k, names).nodes[n];
            && ((m, role) in now.holdings <==>
                  if m == k then role in names || role == MEMBER else (m, role) in was.holdings)
            && (May(now, m, p) <==> if m == k then Grants(was, names + {MEMBER}, p) else May(was, m, p))
            && now.members == was.members && now.roles == was.roles
  {
    assert NodeOk(g, n, g.nodes[n]);
    WithRolesHolds(g.nodes[n], k, names + {MEMBER}, m, role);
    WithRolesMay(g.nodes[n], k, names + {MEMBER}, m, p);
  }

  /** The roles an assignment frame leaves a member with: those that exist here. */
  function Kept(r: Replica, k: Key, names: set<RoleName>): set<RoleName> {
    set n | n in r.roles && (n in names || n == MEMBER || (k == r.founder && n == FOUNDER))
  }

  /** An authorised frame: the same, but only for roles that exist here, and the founder stays founder. */
  lemma AssignFrameMeans(r: Replica, sender: Key, k: Key, names: set<RoleName>, m: Key, role: RoleName, p: Perm)
    requires MEMBER in r.roles && May(r, sender, ROLE_ASSIGN) && k in r.members && k != ""
    ensures var now := ApplyFrame(r, RolesAssign(sender, k, names));
            && ((m, role) in now.holdings <==> if m == k then role in Kept(r, k, names) else (m, role) in r.holdings)
            && (May(now, m, p) <==> if m == k then Grants(r, Kept(r, k, names), p) else May(r, m, p))
            && now.members == r.members && now.roles == r.roles
  {
    var wanted := (names + {MEMBER} + if k == r.founder then {FOUNDER} else {}) * r.roles.Keys;
    assert wanted == Kept(r, k, names) && MEMBER in wanted;
    WithRolesHolds(r, k, wanted, m, role);
    WithRolesMay(r, k, wanted, m, p);
  }

  // ---- changing and deleting roles, admitting and removing members, refreshing ----

  /** The member may do this by another role than `name`. */
  ghost predicate MayOtherwise(r: Replica, m: Key, name: RoleName, p: Perm) {
    exists n :: n != name && n in r.roles && (m, n) in r.holdings && p in r.roles[n]
  }

  /** A role that is defined anew grants what it says and no longer what it said. */
  lemma DefinedMay(r: Replica, name: RoleName, perms: set<Perm>, m: Key, p: Perm)
    ensures May(WithRoleDefined(r, name, perms), m, p) <==>
            MayOtherwise(r, m, name, p) || ((m, name) in r.holdings && p in perms)
  {
    var s := WithRoleDefined(r, name, perms);
    if MayOtherwise(r, m, name, p) {
      var n :| n != name && n in r.roles && (m, n) in r.holdings && p in r.roles[n];
      assert n in s.roles && (m, n) in s.holdings && p in s.roles[n];
    }
    if (m, name) in r.holdings && p in perms { assert name in s.roles; }
  }

  /** A deleted role is held by nobody and grants nothing. */
  lemma DeletedMay(r: Replica, name: RoleName, m: Key, p: Perm)
    ensures May(WithoutRole(r, name), m, p) <==> MayOtherwise(r, m, name, p)
    ensures name !in WithoutRole(r, name).roles && (m, name) !in WithoutRole(r, name).holdings
  {
    var s := WithoutRole(r, name);
    if MayOtherwise(r, m, name, p) {
      var n :| n != name && n in r.roles && (m, n) in r.holdings && p in r.roles[n];
      assert n in s.roles && (m, n) in s.holdings;
    }
  }

  /** A removed member may nothing more; nobody else loses anything. */
  lemma RemovedMay(r: Replica, k: Key, m: Key, p: Perm)
    ensures May(Without(r, k), m, p) <==> m != k && May(r, m, p)
    ensures m in Without(r, k).members <==> m != k && m in r.members
  {
    if m != k && May(r, m, p) {
      var n :| n in r.roles && (m, n) in r.holdings && p in r.roles[n];
      assert (m, n) in Without(r, k).holdings;
    }
  }

  /** An admitted member may what the baseline role grants; nobody else gains anything. */
  lemma AdmittedMay(r: Replica, k: Key, m: Key, p: Perm)
    ensures May(Admit(r, k), m, p) <==> May(r, m, p) || (m == k && MEMBER in r.roles && p in r.roles[MEMBER])
    ensures m in Admit(r, k).members <==> m == k || m in r.members
  {
    var s := Admit(r, k);
    if May(r, m, p) {
      var n :| n in r.roles && (m, n) in r.holdings && p in r.roles[n];
      assert (m, n) in s.holdings;
    }
    if m == k && MEMBER in r.roles { assert (m, MEMBER) in s.holdings; }
  }

  /** A refresh brings a node up to the founder: every member the founder lists is listed, and may at
      least what it may at the founder's. */
  lemma RefreshCatchesUp(r: Replica, f: Replica, m: Key, p: Perm)
    requires May(r, r.me, GROUP_READ) && r.me != r.founder && m in f.members
    ensures m in Refresh(r, RosterOf(f)).members
    ensures May(f, m, p) ==> May(Refresh(r, RosterOf(f)), m, p)
  {
    var s := Refresh(r, RosterOf(f));
    if May(f, m, p) {
      var n :| n in f.roles && (m, n) in f.holdings && p in f.roles[n];
      assert n in s.roles && (m, n) in s.holdings && s.roles[n] == f.roles[n];
    }
  }

  /** But it takes nothing away: a member removed at the founder's stays listed until a frame removes it. */
  lemma RefreshKeeps(r: Replica, f: Replica, m: Key, n: RoleName)
    ensures m in r.members ==> m in Refresh(r, RosterOf(f)).members
    ensures (m, n) in r.holdings ==> (m, n) in Refresh(r, RosterOf(f)).holdings
  {
  }

  // ---- who may remove and admit ----

  /** A kick removes exactly the one it names, and only if the kicker may, and neither is the kicker nor the
      founder that one. */
  lemma KickRemovesIff(g: Net, n: Key, k: Key, m: Key)
    requires NetOk(g) && n in g.nodes && m in g.nodes[n].members
    ensures m !in Kick(g, n, k).nodes[n].members <==>
            m == k && k != n && k != g.founder && May(g.nodes[n], n, MEMBER_KICK)
  {
    assert NodeOk(g, n, g.nodes[n]);
  }

  /** Leaving takes a node's own rows, and nobody's else; the founder cannot. */
  lemma LeaveRemovesIff(g: Net, n: Key, m: Key)
    requires NetOk(g) && n in g.nodes && m in g.nodes[n].members
    ensures m !in Leave(g, n).nodes[n].members <==> m == n && n != g.founder
  {
    assert NodeOk(g, n, g.nodes[n]);
  }

  /** A join request adds exactly the joiner, to an open group that is not full; to a private one it is
      parked, waiting. */
  lemma JoinAdmitsIff(g: Net, n: Key, k: Key, id: nat, sealable: bool, m: Key)
    requires NetOk(g) && n in g.nodes && m !in g.nodes[n].members && id !in g.nodes[n].pending
    ensures var was, now := g.nodes[n], Join(g, n, k, id, sealable).nodes[n];
            var room := was.cap == 0 || |was.members| < was.cap;
            && (m in now.members <==> m == k && !was.isPrivate && room)
            && (id in now.pending <==> k !in was.members && was.isPrivate && room)
            && (id in now.pending ==> now.pending[id] == Request(k, sealable, Waiting))
  {
    assert NodeOk(g, n, g.nodes[n]);
  }

  /** The grant an admission sends carries the group key exactly when the joiner named a key to seal it to;
      then there is one. */
  lemma AdmissionSends(g: Net, n: Key, k: Key, id: nat, sealable: bool)
    requires NetOk(g) && n in g.nodes && CanJoin(g.nodes[n], k) && !g.nodes[n].isPrivate
    ensures var h := Join(g, n, k, id, sealable);
            && h.grants == g.grants + {Grant(k, false, if sealable then h.nodes[n].symkey else None)}
            && (sealable ==> h.nodes[n].symkey.Some?) && (k in h.nodes[n].sealable <==> sealable || k in g.nodes[n].sealable)
  {
    assert NodeOk(g, n, g.nodes[n]);
  }

  /** A grant that arrives makes a member of its own node out of the joiner; the key it brings is kept
      exactly if the node had no tables for the group. */
  lemma GrantMeans(g: Net, a: Grant)
    requires NetOk(g) && a in g.grants && a.joiner != g.founder
    ensures var now := ReceiveGrant(g, a).nodes[a.joiner];
            && now.me == a.joiner && a.joiner in now.members && g.founder in now.members && May(now, a.joiner, GROUP_READ)
            && now.symkey == (if a.joiner in g.nodes then g.nodes[a.joiner].symkey else a.symkey)
            && (a.joiner !in g.nodes ==> now.sealable == {a.joiner} && now.members == {a.joiner, g.founder})
  {
    if a.joiner in g.nodes { assert NodeOk(g, a.joiner, g.nodes[a.joiner]); }
    var now := ReceiveGrant(g, a).nodes[a.joiner];
    assert (a.joiner, MEMBER) in now.holdings && MEMBER in now.roles && GROUP_READ in now.roles[MEMBER];
  }

  /** An approval adds exactly the joiner of a waiting request, once, and only if the approver may. */
  lemma ApprovalAdmitsIff(g: Net, n: Key, id: nat, m: Key)
    requires NetOk(g) && n in g.nodes && m !in g.nodes[n].members
    ensures var was, now := g.nodes[n], Approve(g, n, id).nodes[n];
            m in now.members <==>
            && id in was.pending && was.pending[id] == Request(m, was.pending[id].sealable, Waiting)
            && May(was, n, GROUP_APPROVE)
    ensures var now := Approve(g, n, id).nodes[n];
            m in now.members ==> id in now.pending && now.pending[id].state == Approved
  {
    assert NodeOk(g, n, g.nodes[n]);
  }

  /** What makes a role definition, deletion or assignment take effect. */
  lemma RoleEndpointsIff(g: Net, n: Key, name: RoleName, perms: set<Perm>)
    requires NetOk(g) && n in g.nodes
    ensures var r := g.nodes[n];
            && (RoleUpsert(n, name, perms) in UpsertRole(g, n, name, perms).frames - g.frames <==>
                  && RoleUpsert(n, name, perms) !in g.frames && May(r, n, ROLE_ASSIGN)
                  && 1 <= |name| <= 64 && name != "founder" && name != "member")
            && (RoleDelete(n, name) in DeleteRole(g, n, name).frames - g.frames <==>
                  && RoleDelete(n, name) !in g.frames && May(r, n, ROLE_ASSIGN)
                  && name in r.roles && name != "founder" && name != "admin" && name != "member")
  {
    assert NodeOk(g, n, g.nodes[n]);
  }

  lemma AssignEndpointIff(g: Net, n: Key, k: Key, names: set<RoleName>)
    requires NetOk(g) && n in g.nodes && RolesAssign(n, k, names + {MEMBER}) !in g.frames
    ensures var r := g.nodes[n];
            RolesAssign(n, k, names + {MEMBER}) in AssignRoles(g, n, k, names).frames <==>
            && May(r, n, ROLE_ASSIGN) && k in r.members && (forall x <- names :: x in r.roles)
            && (k == g.founder ==> "founder" in names)
  {
    assert NodeOk(g, n, g.nodes[n]);
  }

  /** A frame from somebody who may not send it changes nothing. */
  lemma UnauthorisedChangesNothing(r: Replica, f: Frame)
    requires f.RolesAssign? || f.RoleUpsert? || f.RoleDelete? ==> !May(r, f.sender, ROLE_ASSIGN)
    requires f.Rotate? ==> f.gone != f.sender && !May(r, f.sender, MEMBER_KICK)
    requires f.RosterAdd? ==> f.member == ""
    ensures ApplyFrame(r, f) == r
  {
  }

  // ---- frames do elsewhere what endpoints did at home ----

  /** Two nodes list the same members with the same roles. */
  predicate Alike(r: Replica, q: Replica) {
    r.founder == q.founder && r.members == q.members && r.roles == q.roles && r.holdings == q.holdings
  }

  lemma AlikeMay(r: Replica, q: Replica, k: Key, p: Perm)
    requires Alike(r, q) && May(r, k, p)
    ensures May(q, k, p)
  {
  }

  lemma AdmissionMirrors(r: Replica, q: Replica, k: Key)
    requires Alike(r, q) && k != ""
    ensures Alike(Admit(r, k), ApplyFrame(q, RosterAdd(r.me, k)))
  {
  }

  lemma AssignmentMirrors(r: Replica, q: Replica, k: Key, names: set<RoleName>)
    requires Alike(r, q) && MEMBER in r.roles && CanAssign(r, k, names) && k != ""
    ensures Alike(WithRoles(r, k, names + {MEMBER}), ApplyFrame(q, RolesAssign(r.me, k, names + {MEMBER})))
  {
    AlikeMay(r, q, r.me, ROLE_ASSIGN);
    var sent := names + {MEMBER};
    assert (sent + {MEMBER} + if k == q.founder then {FOUNDER} else {}) * q.roles.Keys == sent;
  }

  /** Removed everywhere but at the removed node itself, which keeps its rows. */
  lemma RemovalMirrors(r: Replica, q: Replica, k: Key, sealed: set<Key>, key: nat)
    requires Alike(r, q) && k != "" && (CanKick(r, k) || (CanLeave(r) && k == r.me))
    ensures Alike(Without(r, k), ApplyFrame(q, Rotate(r.me, k, sealed, key))) <==> q.me != k
  {
    if CanKick(r, k) { AlikeMay(r, q, r.me, MEMBER_KICK); }
  }

  /** A role that is defined at home comes out alike exactly when its name has no white space around it,
      or all it could change is there already: the frame is stripped, the request is not. */
  lemma DefinitionMirrorsIff(r: Replica, q: Replica, name: RoleName, perms: set<Perm>)
    requires Alike(r, q) && CanUpsert(r, name)
    ensures var n := Text.Strip(name);
            Alike(WithRoleDefined(r, name, perms), ApplyFrame(q, RoleUpsert(r.me, name, perms))) <==>
            || n == name
            || (&& name in r.roles && r.roles[name] == perms
                && (n == "" || n == FOUNDER || n == MEMBER || (n in r.roles && r.roles[n] == perms)))
  {
    AlikeMay(r, q, r.me, ROLE_ASSIGN);
    var n := Text.Strip(name);
    var a, b := WithRoleDefined(r, name, perms), ApplyFrame(q, RoleUpsert(r.me, name, perms));
    assert b.roles == if n == "" || n == FOUNDER || n == MEMBER then r.roles else r.roles[n := perms];
    if n != name {
      if a.roles == b.roles {
        assert name in b.roles && b.roles[name] == perms;
        assert n == "" || n == FOUNDER || n == MEMBER || (n in a.roles && a.roles[n] == perms);
      }
      if name in r.roles && r.roles[name] == perms { assert a.roles == r.roles; }
    }
  }

  /** And a deleted one exactly when there is none around it. */
  lemma DeletionMirrorsIff(r: Replica, q: Replica, name: RoleName)
    requires Alike(r, q) && CanDeleteRole(r, name)
    ensures Alike(WithoutRole(r, name), ApplyFrame(q, RoleDelete(r.me, name))) <==> Text.Strip(name) == name != ""
  {
    AlikeMay(r, q, r.me, ROLE_ASSIGN);
    var n := Text.Strip(name);
    if n != name || name == "" {
      assert name in ApplyFrame(q, RoleDelete(r.me, name)).roles;
    }
  }

  // ---- an admin demoted ----

  /** An admin that the founder assigns no roles is refused from then on, once it hears of it. */
  lemma DemotedMayNot(r: Replica, sender: Key, k: Key, p: Perm)
    requires SoundReplica(r) && May(r, sender, ROLE_ASSIGN) && k in r.members && k != "" && k != r.founder
    requires p !in MEMBER_PERMS
    ensures !May(ApplyFrame(r, RolesAssign(sender, k, {MEMBER})), k, p)
  {
    AssignFrameMeans(r, sender, k, {MEMBER}, k, MEMBER, p);
    assert Kept(r, k, {MEMBER}) == {MEMBER};
  }

  lemma InvitersKick(r: Replica, b: Key)
    requires r.roles == DEFAULT_ROLES && May(r, b, "group:invite")
    ensures May(r, b, MEMBER_KICK)
  {
    var n :| n in r.roles && (b, n) in r.holdings && "group:invite" in r.roles[n];
    assert MEMBER_KICK in r.roles[n];
  }

  lemma ReachDemotion(founder: Key, g: Net, b: Key) returns (h: Net)
    requires Reachable(founder, g) && OneIn(g, founder, b) && founder != b
    ensures Reachable(founder, h) && b in h.nodes && h.nodes[b] == g.nodes[b] && RolesAssign(founder, b, {MEMBER}) in h.frames
  {
    ReachableOk(founder, g);
    FounderMay(g, ROLE_ASSIGN);
    assert NodeOk(g, founder, g.nodes[founder]) && {} + {MEMBER} == {MEMBER};
    Reach(founder, g, DoAssign(founder, b, {}));
    h := AssignRoles(g, founder, b, {});
  }

  lemma TakesDemotion(r: Replica, founder: Key, b: Key)
    requires OpenTables(r, founder, b) && r.founder == founder && SoundReplica(r) && founder != b && b != ""
    ensures !May(ApplyFrame(r, RolesAssign(founder, b, {MEMBER})), b, MEMBER_KICK)
  {
    NobodyLockedOut(r, founder);
    DemotedMayNot(r, founder, b, MEMBER_KICK);
  }

  lemma ReachDemoted(founder: Key, g: Net, b: Key) returns (h: Net)
    requires Reachable(founder, g) && b in g.nodes && founder != b && b != ""
    requires OpenTables(g.nodes[b], founder, b) && RolesAssign(founder, b, {MEMBER}) in g.frames
    ensures Reachable(founder, h) && b in h.nodes && !May(h.nodes[b], b, MEMBER_KICK)
  {
    ReachableOk(founder, g);
    assert NodeOk(g, b, g.nodes[b]);
    var f := RolesAssign(founder, b, {MEMBER});
    TakesDemotion(g.nodes[b], founder, b);
    FrameScope(g.nodes[b], f);
    Reach(founder, g, DoDeliver(b, f));
    h := Deliver(g, b, f);
  }

  /** A run in which a member is made admin, so that it could kick, and demoted, so that every kick it
      tries is refused. */
  lemma AdminDemoted(founder: Key, b: Key) returns (before: seq<Step>, after: seq<Step>)
    requires founder != b && b != ""
    ensures var g := Exec(Start(founder, 0, false), before); b in g.nodes && May(g.nodes[b], b, MEMBER_KICK)
    ensures var h := Exec(Start(founder, 0, false), after); b in h.nodes && forall k :: Kick(h, b, k) == h
  {
    var g := ReachOneIn(founder, b);
    g := ReachAssigned(founder, g, b);
    g := ReachAdmin(founder, g, b);
    InvitersKick(g.nodes[b], b);
    before :| Exec(Start(founder, 0, false), before) == g;
    var h := ReachDemotion(founder, g, b);
    h := ReachDemoted(founder, h, b);
    after :| Exec(Start(founder, 0, false), after) == h;
    RefusedKicks(founder, h, b);
  }

  lemma RefusedKicks(founder: Key, h: Net, b: Key)
    requires Reachable(founder, h) && b in h.nodes && !May(h.nodes[b], b, MEMBER_KICK)
    ensures forall k :: Kick(h, b, k) == h
  {
    ReachableOk(founder, h);
    assert NodeOk(h, b, h.nodes[b]);
  }

  /** White space around a name keeps the tables of two nodes from agreeing on the role. */
  lemma SpacedRoleDiverges(r: Replica, q: Replica, perms: set<Perm>)
    requires Alike(r, q) && May(r, r.me, ROLE_ASSIGN) && " judge" !in r.roles
    ensures CanUpsert(r, " judge")
    ensures !Alike(WithRoleDefined(r, " judge", perms), ApplyFrame(q, RoleUpsert(r.me, " judge", perms)))
  {
    Text.StripIff(" judge");
    DefinitionMirrorsIff(r, q, " judge", perms);
  }
}
