/** One node's tables for a group, and the handlers that rewrite them: the local endpoints, the join
    endpoint, and the frames other members publish. */
module Groups {
  import opened Wrappers
  import Text

  type Key = string
  type RoleName = string
  type Perm = string

  const FOUNDER: RoleName := "founder"
  const ADMIN: RoleName := "admin"
  const MEMBER: RoleName := "member"

  const GROUP_READ: Perm := "group:read"
  const GROUP_APPROVE: Perm := "group:approve"
  const MEMBER_KICK: Perm := "member:kick"
  const ROLE_ASSIGN: Perm := "role:assign"

  /** Every permission that names no particular service. */
  const ALL_PERMS: set<Perm> := {
    GROUP_READ, "group:invite", GROUP_APPROVE, MEMBER_KICK, "member:mute", ROLE_ASSIGN, "service:list",
    "service:host", "relay:host", "relay:use", "relay:share_content", "task:run"}
  const MEMBER_PERMS: set<Perm> := {GROUP_READ, "relay:use", "task:run"}

  const DEFAULT_ROLES: map<RoleName, set<Perm>> := map[FOUNDER := ALL_PERMS, ADMIN := ALL_PERMS, MEMBER := MEMBER_PERMS]

  const MAX_ROLE_NAME := 64

  datatype RequestState = Waiting | Approved

  /** A parked join request; `sealable` says whether it named a key to seal to. */
  datatype Request = Request(joiner: Key, sealable: bool, state: RequestState)

  /** The rows node `me` holds; `sealable` are the members whose row has a key to seal to. A group key is
      known by the number of its minting. */
  datatype Replica = Replica(
    me: Key,
    founder: Key,
    cap: nat,
    isPrivate: bool,
    members: set<Key>,
    sealable: set<Key>,
    roles: map<RoleName, set<Perm>>,
    holdings: set<(Key, RoleName)>,
    pending: map<nat, Request>,
    symkey: Option<nat>)

  /** `effective_permissions`: the union over every role the member holds. */
  ghost function Permissions(r: Replica, k: Key): set<Perm> {
    set n, p | n in r.roles && (k, n) in r.holdings && p in r.roles[n] :: p
  }

  ghost predicate May(r: Replica, k: Key, p: Perm) {
    exists n :: n in r.roles && (k, n) in r.holdings && p in r.roles[n]
  }

  // ---- row operations ----

  /** Replaces the roles of one member. */
  function WithRoles(r: Replica, k: Key, names: set<RoleName>): Replica {
    r.(holdings := (set a | a in r.holdings && a.0 != k) + (set n | n in names :: (k, n)))
  }

  /** Deletes one member's rows. */
  function Without(r: Replica, k: Key): Replica {
    r.(members := r.members - {k}, sealable := r.sealable - {k}, holdings := set a | a in r.holdings && a.0 != k)
  }

  function WithRoleDefined(r: Replica, name: RoleName, perms: set<Perm>): Replica {
    r.(roles := r.roles[name := perms])
  }

  /** Deletes a role and every assignment of it. */
  function WithoutRole(r: Replica, name: RoleName): Replica {
    r.(roles := r.roles - {name}, holdings := set a | a in r.holdings && a.1 != name)
  }

  /** Adds a member holding the baseline role, without a key to seal to. */
  function Admit(r: Replica, k: Key): Replica {
    r.(members := r.members + {k}, holdings := r.holdings + {(k, MEMBER)})
  }

  /** Adds a member that named a key to seal to, or did not. */
  function AdmitWithKey(r: Replica, k: Key, sealable: bool): Replica {
    Admit(r, k).(sealable := if sealable then r.sealable + {k} else r.sealable)
  }

  /** To whom a rotation that removes `gone` is sealed: the other members whose key the node has. */
  function SealsTo(r: Replica, gone: Key): set<Key> {
    r.members * r.sealable - {r.me, gone}
  }

  // ---- the local endpoints ----

  function Create(me: Key, cap: nat, isPrivate: bool): Replica {
    Replica(me, me, cap, isPrivate, {me}, {me}, DEFAULT_ROLES, {(me, FOUNDER)}, map[], None)
  }

  ghost predicate CanUpsert(r: Replica, name: RoleName) {
    May(r, r.me, ROLE_ASSIGN) && 1 <= |name| <= MAX_ROLE_NAME && name != FOUNDER && name != MEMBER
  }

  ghost predicate CanDeleteRole(r: Replica, name: RoleName) {
    name !in DEFAULT_ROLES && May(r, r.me, ROLE_ASSIGN) && name in r.roles
  }

  ghost predicate CanAssign(r: Replica, k: Key, names: set<RoleName>) {
    && May(r, r.me, ROLE_ASSIGN) && k in r.members && names <= r.roles.Keys
    && (k == r.founder ==> FOUNDER in names)
  }

  ghost predicate CanKick(r: Replica, k: Key) {
    May(r, r.me, MEMBER_KICK) && k != r.me && k != r.founder && k in r.members
  }

  ghost predicate CanLeave(r: Replica) {
    r.me != r.founder && r.me in r.members
  }

  /** The join endpoint admits nobody twice and, where there is a cap, nobody beyond it. */
  ghost predicate CanJoin(r: Replica, k: Key) {
    k !in r.members && (r.cap > 0 ==> |r.members| < r.cap)
  }

  /** Approving inserts the membership row without asking about the cap again; a row that is already
      there makes the insertion fail. */
  ghost predicate CanApprove(r: Replica, id: nat) {
    && May(r, r.me, GROUP_APPROVE) && id in r.pending && r.pending[id].state == Waiting
    && r.pending[id].joiner !in r.members
  }

  /** The group key after a grant: minted on first use, by a joiner it can be sealed to. */
  function KeyFor(r: Replica, sealable: bool, minted: nat): Option<nat> {
    if sealable && r.symkey.None? then Some(minted) else r.symkey
  }

  // ---- the joiner's side ----

  /** The tables a joiner starts from when it has none. */
  function Bootstrap(me: Key, founder: Key, isPrivate: bool, symkey: Option<nat>): Replica {
    Replica(me, founder, 0, isPrivate, {founder}, {}, DEFAULT_ROLES, {(founder, FOUNDER)}, map[], symkey)
  }

  /** A grant that arrives adds the joiner to its own tables, once; a key it brings is kept only by a
      node that had no tables. */
  function TakeGrant(r: Replica): Replica {
    if r.me in r.members then r else AdmitWithKey(r, r.me, true)
  }

  // ---- frames ----

  datatype Frame =
    | RosterAdd(sender: Key, member: Key)
    | RolesAssign(sender: Key, member: Key, names: set<RoleName>)
    | RoleUpsert(sender: Key, name: RoleName, perms: set<Perm>)
    | RoleDelete(sender: Key, name: RoleName)
    | Rotate(sender: Key, gone: Key, recipients: set<Key>, symkey: nat)

  ghost predicate Authorized(r: Replica, f: Frame) {
    match f
    case RosterAdd(_, _) => true
    case RolesAssign(sender, _, _) => May(r, sender, ROLE_ASSIGN)
    case RoleUpsert(sender, _, _) => May(r, sender, ROLE_ASSIGN)
    case RoleDelete(sender, _) => May(r, sender, ROLE_ASSIGN)
    case Rotate(sender, gone, _, _) => (gone != "" && gone == sender) || May(r, sender, MEMBER_KICK)
  }

  function ApplyRosterAdd(r: Replica, member: Key): Replica {
    if member == "" then r else Admit(r, member)
  }

  function ApplyRolesAssign(r: Replica, member: Key, names: set<RoleName>): Replica {
    var wanted := (names + {MEMBER} + if member == r.founder then {FOUNDER} else {}) * r.roles.Keys;
    if member == "" || member !in r.members || wanted == {} then r else WithRoles(r, member, wanted)
  }

  function ApplyRoleUpsert(r: Replica, name: RoleName, perms: set<Perm>): Replica {
    var n := Text.Strip(name);
    if n == "" || n == FOUNDER || n == MEMBER then r else WithRoleDefined(r, n, perms)
  }

  function ApplyRoleDelete(r: Replica, name: RoleName): Replica {
    var n := Text.Strip(name);
    if n == "" || n == FOUNDER || n == ADMIN || n == MEMBER || n !in r.roles then r else WithoutRole(r, n)
  }

  /** The removed member's own node keeps its rows. */
  function ApplyRotate(r: Replica, gone: Key, recipients: set<Key>, symkey: nat): Replica {
    var s := if r.me in recipients then r.(symkey := Some(symkey)) else r;
    if gone != "" && gone != r.me then Without(s, gone) else s
  }

  ghost function ApplyFrame(r: Replica, f: Frame): Replica {
    if !Authorized(r, f) then r
    else
      match f
      case RosterAdd(_, member) => ApplyRosterAdd(r, member)
      case RolesAssign(_, member, names) => ApplyRolesAssign(r, member, names)
      case RoleUpsert(_, name, perms) => ApplyRoleUpsert(r, name, perms)
      case RoleDelete(_, name) => ApplyRoleDelete(r, name)
      case Rotate(_, gone, recipients, symkey) => ApplyRotate(r, gone, recipients, symkey)
  }

  // ---- the founder's roster ----

  datatype Roster = Roster(members: set<Key>, roles: map<RoleName, set<Perm>>, holdings: set<(Key, RoleName)>)

  /** What the founder answers a roster request with: the roles of the members it lists. */
  function RosterOf(r: Replica): Roster {
    Roster(r.members, r.roles, set a | a in r.holdings && a.0 in r.members)
  }

  /** A refresh only adds rows, except that role definitions are overwritten; the founder's own node skips it. */
  ghost function Refresh(r: Replica, roster: Roster): Replica {
    if !May(r, r.me, GROUP_READ) || r.me == r.founder then r
    else r.(members := r.members + roster.members, roles := r.roles + roster.roles, holdings := r.holdings + roster.holdings)
  }
}

/** Every node of a group: the handlers, and the frames, grants and rosters under way between nodes.
    Nothing under way is ever withdrawn, so that it may arrive late, twice, out of order or never. */
module GroupNet {
  import opened Wrappers
  import opened Groups

  /** The answer to an admission. */
  datatype Grant = Grant(joiner: Key, isPrivate: bool, symkey: Option<nat>)

  datatype Removal = Removal(rotator: Key, gone: Key, sealedTo: set<Key>)

  /** `minted` counts the group keys minted so far; `removed` says, of a key a rotation minted,
      which node rotated, whom it removed, and to whom it sealed the key; `admitted` holds the pairs of a
      node and a joiner it admitted with a key to seal to. */
  datatype Net = Net(
    founder: Key,
    nodes: map<Key, Replica>,
    frames: set<Frame>,
    grants: set<Grant>,
    rosters: set<Roster>,
    minted: nat,
    removed: map<nat, Removal>,
    admitted: set<(Key, Key)>)

  function Start(founder: Key, cap: nat, isPrivate: bool): Net {
    Net(founder, map[founder := Create(founder, cap, isPrivate)], {}, {}, {}, 0, map[], {})
  }

  function Put(g: Net, r: Replica): Net {
    g.(nodes := g.nodes[r.me := r])
  }

  ghost function UpsertRole(g: Net, n: Key, name: RoleName, perms: set<Perm>): Net
    requires n in g.nodes
  {
    var r := g.nodes[n];
    if !CanUpsert(r, name) then g
    else Put(g, WithRoleDefined(r, name, perms)).(frames := g.frames + {RoleUpsert(n, name, perms)})
  }

  ghost function DeleteRole(g: Net, n: Key, name: RoleName): Net
    requires n in g.nodes
  {
    var r := g.nodes[n];
    if !CanDeleteRole(r, name) then g
    else Put(g, WithoutRole(r, name)).(frames := g.frames + {RoleDelete(n, name)})
  }

  ghost function AssignRoles(g: Net, n: Key, k: Key, names: set<RoleName>): Net
    requires n in g.nodes
  {
    var r := g.nodes[n];
    if !CanAssign(r, k, names) then g
    else Put(g, WithRoles(r, k, names + {MEMBER})).(frames := g.frames + {RolesAssign(n, k, names + {MEMBER})})
  }

  /** Mints a key at `r.me` and seals it to the members it can. */
  function RotateKey(g: Net, r: Replica, gone: Key): Net {
    Put(g, r.(symkey := Some(g.minted))).(
      frames := g.frames + {Rotate(r.me, gone, SealsTo(r, gone), g.minted)},
      minted := g.minted + 1,
      removed := g.removed[g.minted := Removal(r.me, gone, SealsTo(r, gone))])
  }

  ghost function Kick(g: Net, n: Key, k: Key): Net
    requires n in g.nodes
  {
    var r := g.nodes[n];
    if !CanKick(r, k) then g else RotateKey(g, Without(r, k), k)
  }

  ghost function Leave(g: Net, n: Key): Net
    requires n in g.nodes
  {
    var r := g.nodes[n];
    if !CanLeave(r) then g else RotateKey(g, Without(r, n), n)
  }

  /** `issue_member_grant`: the membership rows, the key (minted on first use) sealed to a joiner that
      can receive it, and the roster frame. */
  function IssueGrant(g: Net, r: Replica, k: Key, sealable: bool): Net {
    var symkey := KeyFor(r, sealable, g.minted);
    Put(g, AdmitWithKey(r, k, sealable).(symkey := symkey)).(
      grants := g.grants + {Grant(k, r.isPrivate, if sealable then symkey else None)},
      frames := g.frames + {RosterAdd(r.me, k)},
      minted := if sealable && r.symkey.None? then g.minted + 1 else g.minted,
      admitted := if sealable then g.admitted + {(r.me, k)} else g.admitted)
  }

  /** A join request whose invite is good; a private group parks it under a fresh id. */
  ghost function Join(g: Net, n: Key, k: Key, id: nat, sealable: bool): Net
    requires n in g.nodes
  {
    var r := g.nodes[n];
    if !CanJoin(r, k) then g
    else if !r.isPrivate then IssueGrant(g, r, k, sealable)
    else if id in r.pending then g
    else Put(g, r.(pending := r.pending[id := Request(k, sealable, Waiting)]))
  }

  ghost function Approve(g: Net, n: Key, id: nat): Net
    requires n in g.nodes
  {
    var r := g.nodes[n];
    if !CanApprove(r, id) then g
    else
      var q := r.pending[id];
      IssueGrant(g, r.(pending := r.pending[id := q.(state := Approved)]), q.joiner, q.sealable)
  }

  ghost function ReceiveGrant(g: Net, a: Grant): Net
    requires a in g.grants
  {
    var r := if a.joiner in g.nodes then g.nodes[a.joiner] else Bootstrap(a.joiner, g.founder, a.isPrivate, a.symkey);
    Put(g, TakeGrant(r))
  }

  ghost function Deliver(g: Net, n: Key, f: Frame): Net
    requires n in g.nodes && f in g.frames
  {
    Put(g, ApplyFrame(g.nodes[n], f))
  }

  ghost function SendRoster(g: Net): Net
    requires g.founder in g.nodes
  {
    g.(rosters := g.rosters + {RosterOf(g.nodes[g.founder])})
  }

  ghost function TakeRoster(g: Net, n: Key, roster: Roster): Net
    requires n in g.nodes && roster in g.rosters
  {
    Put(g, Refresh(g.nodes[n], roster))
  }

  // ---- runs ----

  datatype Step =
    | DoUpsert(n: Key, name: RoleName, perms: set<Perm>)
    | DoDelete(n: Key, name: RoleName)
    | DoAssign(n: Key, k: Key, names: set<RoleName>)
    | DoKick(n: Key, k: Key)
    | DoLeave(n: Key)
    | DoJoin(n: Key, k: Key, id: nat, sealable: bool)
    | DoApprove(n: Key, id: nat)
    | DoGrant(a: Grant)
    | DoDeliver(n: Key, f: Frame)
    | DoSendRoster
    | DoTakeRoster(n: Key, roster: Roster)

  /** Whether the step can happen: its node has tables and what it receives was sent. */
  predicate Enabled(g: Net, s: Step) {
    match s
    case DoGrant(a) => a in g.grants
    case DoDeliver(n, f) => n in g.nodes && f in g.frames
    case DoSendRoster => g.founder in g.nodes
    case DoTakeRoster(n, roster) => n in g.nodes && roster in g.rosters
    case DoUpsert(n, _, _) => n in g.nodes
    case DoDelete(n, _) => n in g.nodes
    case DoAssign(n, _, _) => n in g.nodes
    case DoKick(n, _) => n in g.nodes
    case DoLeave(n) => n in g.nodes
    case DoJoin(n, _, _, _) => n in g.nodes
    case DoApprove(n, _) => n in g.nodes
  }

  ghost function Apply(g: Net, s: Step): Net {
    if !Enabled(g, s) then g
    else
      match s
      case DoUpsert(n, name, perms) => UpsertRole(g, n, name, perms)
      case DoDelete(n, name) => DeleteRole(g, n, name)
      case DoAssign(n, k, names) => AssignRoles(g, n, k, names)
      case DoKick(n, k) => Kick(g, n, k)
      case DoLeave(n) => Leave(g, n)
      case DoJoin(n, k, id, sealable) => Join(g, n, k, id, sealable)
      case DoApprove(n, id) => Approve(g, n, id)
      case DoGrant(a) => ReceiveGrant(g, a)
      case DoDeliver(n, f) => Deliver(g, n, f)
      case DoSendRoster => SendRoster(g)
      case DoTakeRoster(n, roster) => TakeRoster(g, n, roster)
  }

  ghost function Exec(g: Net, steps: seq<Step>): Net
    decreases |steps|
  {
    if steps == [] then g else Apply(Exec(g, steps[..|steps| - 1]), steps[|steps| - 1])
  }
}
