/** The group handlers of one node, in place: each rewrites the tables as its specification says. */
module GroupNode {
  import opened Wrappers
  import opened Groups

  class Tables {
    const me: Key
    const founder: Key
    const cap: nat
    const isPrivate: bool
    var members: set<Key>
    var sealable: set<Key>
    var roles: map<RoleName, set<Perm>>
    var holdings: set<(Key, RoleName)>
    var pending: map<nat, Request>
    var symkey: Option<nat>

    ghost function State(): Replica
      reads this
    {
      Replica(me, founder, cap, isPrivate, members, sealable, roles, holdings, pending, symkey)
    }

    /** `create_group`. */
    constructor (me: Key, cap: nat, isPrivate: bool)
      ensures State() == Create(me, cap, isPrivate)
    {
      this.me, this.founder, this.cap, this.isPrivate := me, me, cap, isPrivate;
      members, sealable, holdings, pending, symkey := {me}, {me}, {(me, FOUNDER)}, map[], None;
      roles := DEFAULT_ROLES;
    }

    /** The joiner's tables, from a grant. */
    constructor FromGrant(me: Key, founder: Key, isPrivate: bool, symkey: Option<nat>)
      ensures State() == TakeGrant(Bootstrap(me, founder, isPrivate, symkey))
    {
      this.me, this.founder, this.cap, this.isPrivate := me, founder, 0, isPrivate;
      roles, pending, this.symkey := DEFAULT_ROLES, map[], symkey;
      members := {founder, me};
      sealable := if me == founder then {} else {me};
      holdings := if me == founder then {(founder, FOUNDER)} else {(founder, FOUNDER), (me, MEMBER)};
    }

    /** `effective_permissions`: collects role by role. */
    method EffectivePermissions(k: Key) returns (perms: set<Perm>)
      ensures perms == Permissions(State(), k)
    {
      perms := {};
      var todo := roles.Keys;
      while todo != {}
        invariant todo <= roles.Keys
        invariant perms == set n, p | n in roles.Keys - todo && (k, n) in holdings && p in roles[n] :: p
        decreases |todo|
      {
        var n :| n in todo;
        if (k, n) in holdings {
          perms := perms + roles[n];
        }
        todo := todo - {n};
      }
    }

    method HasPermission(k: Key, p: Perm) returns (yes: bool)
      ensures yes == May(State(), k, p)
    {
      var perms := EffectivePermissions(k);
      yes := p in perms;
    }

    method UpsertRole(name: RoleName, perms: set<Perm>) returns (ok: bool)
      modifies this
      ensures ok == CanUpsert(old(State()), name)
      ensures State() == if ok then WithRoleDefined(old(State()), name, perms) else old(State())
    {
      if name == "" || |name| > MAX_ROLE_NAME { return false; }
      var allowed := HasPermission(me, ROLE_ASSIGN);
      if !allowed || name == FOUNDER || name == MEMBER { return false; }
      roles := roles[name := perms];
      return true;
    }

    method DeleteRole(name: RoleName) returns (ok: bool)
      modifies this
      ensures ok == CanDeleteRole(old(State()), name)
      ensures State() == if ok then WithoutRole(old(State()), name) else old(State())
    {
      if name in DEFAULT_ROLES { return false; }
      var allowed := HasPermission(me, ROLE_ASSIGN);
      if !allowed || name !in roles { return false; }
      holdings := set a | a in holdings && a.1 != name;
      roles := roles - {name};
      return true;
    }

    /** Replaces a member's assignments: deletes them all, then adds one row per role. */
    method ReplaceRoles(k: Key, names: set<RoleName>)
      modifies `holdings
      ensures State() == WithRoles(old(State()), k, names)
    {
      holdings := set a | a in holdings && a.0 != k;
      ghost var kept := holdings;
      var todo := names;
      while todo != {}
        invariant todo <= names
        invariant holdings == kept + (set n | n in names - todo :: (k, n))
        decreases |todo|
      {
        var n :| n in todo;
        holdings := holdings + {(k, n)};
        todo := todo - {n};
      }
    }

    method AssignMemberRoles(k: Key, names: set<RoleName>) returns (ok: bool)
      modifies this
      ensures ok == CanAssign(old(State()), k, names)
      ensures State() == if ok then WithRoles(old(State()), k, names + {MEMBER}) else old(State())
    {
      var allowed := HasPermission(me, ROLE_ASSIGN);
      if !allowed || k !in members || !(names <= roles.Keys) || (k == founder && FOUNDER !in names) { return false; }
      ReplaceRoles(k, names + {MEMBER});
      return true;
    }

    method DropMember(k: Key)
      modifies `members, `sealable, `holdings
      ensures State() == Without(old(State()), k)
    {
      members, sealable := members - {k}, sealable - {k};
      holdings := set a | a in holdings && a.0 != k;
    }

    /** The envelopes of `publish_symkey_rotate`: one for every other member whose key is on its row. */
    method SealEnvelopes(gone: Key) returns (sealed: set<Key>)
      ensures sealed == SealsTo(State(), gone)
    {
      sealed := {};
      var todo := members;
      while todo != {}
        invariant todo <= members
        invariant sealed == (members - todo) * sealable - {me, gone}
        decreases |todo|
      {
        var m :| m in todo;
        if m != me && m != gone && m in sealable {
          sealed := sealed + {m};
        }
        todo := todo - {m};
      }
    }

    /** `kick_member`, with the number of the key it mints; returns the members the rotation is sealed to. */
    method KickMember(k: Key, minted: nat) returns (sealed: Option<set<Key>>)
      modifies this
      ensures sealed.Some? == CanKick(old(State()), k)
      ensures sealed.Some? ==> sealed.value == SealsTo(old(State()), k)
      ensures State() == if sealed.Some? then Without(old(State()), k).(symkey := Some(minted)) else old(State())
    {
      var allowed := HasPermission(me, MEMBER_KICK);
      if !allowed || k == me || k == founder || k !in members { return None; }
      DropMember(k);
      var envelopes := SealEnvelopes(k);
      sealed := Some(envelopes);
      symkey := Some(minted);
    }

    /** `leave_group`: rotates first, then drops the node's own rows. */
    method LeaveGroup(minted: nat) returns (sealed: Option<set<Key>>)
      modifies this
      ensures sealed.Some? == CanLeave(old(State()))
      ensures sealed.Some? ==> sealed.value == SealsTo(old(State()), me)
      ensures State() == if sealed.Some? then Without(old(State()), me).(symkey := Some(minted)) else old(State())
    {
      if founder == me || me !in members { return None; }
      var envelopes := SealEnvelopes(me);
      sealed := Some(envelopes);
      symkey := Some(minted);
      DropMember(me);
    }

    /** `issue_member_grant`: the rows, and the key for a joiner it can be sealed to. */
    method IssueMemberGrant(k: Key, canSeal: bool, minted: nat) returns (envelope: Option<nat>)
      modifies this
      ensures var s := old(State());
              var key := KeyFor(s, canSeal, minted);
              State() == AdmitWithKey(s, k, canSeal).(symkey := key) && envelope == if canSeal then key else None
    {
      members := members + {k};
      holdings := holdings + {(k, MEMBER)};
      envelope := None;
      if canSeal {
        sealable := sealable + {k};
        if symkey.None? { symkey := Some(minted); }
        envelope := symkey;
      }
    }

    /** The membership part of `join_request`, for an invite that is good. */
    method JoinRequest(k: Key, id: nat, canSeal: bool, minted: nat) returns (admitted: bool)
      requires id !in pending
      modifies this
      ensures var s := old(State());
              && admitted == (CanJoin(s, k) && !s.isPrivate)
              && (admitted ==> State() == AdmitWithKey(s, k, canSeal).(symkey := KeyFor(s, canSeal, minted)))
              && (!admitted ==>
                    State() == if CanJoin(s, k) then s.(pending := s.pending[id := Request(k, canSeal, Waiting)]) else s)
    {
      if k in members || (cap > 0 && |members| >= cap) { return false; }
      if isPrivate {
        pending := pending[id := Request(k, canSeal, Waiting)];
        return false;
      }
      var _ := IssueMemberGrant(k, canSeal, minted);
      return true;
    }

    method ApprovePending(id: nat, minted: nat) returns (ok: bool)
      modifies this
      ensures var s := old(State());
              && ok == CanApprove(s, id)
              && (ok ==> var q := s.pending[id];
                         State() == AdmitWithKey(s, q.joiner, q.sealable).(
                           symkey := KeyFor(s, q.sealable, minted), pending := s.pending[id := q.(state := Approved)]))
              && (!ok ==> State() == s)
    {
      var allowed := HasPermission(me, GROUP_APPROVE);
      if !allowed || id !in pending || pending[id].state != Waiting || pending[id].joiner in members { return false; }
      var q := pending[id];
      var _ := IssueMemberGrant(q.joiner, q.sealable, minted);
      pending := pending[id := q.(state := Approved)];
      return true;
    }

    /** `dispatch_inbound_frame`, for the frames that touch the tables. */
    method ReceiveFrame(f: Frame)
      modifies this
      ensures State() == ApplyFrame(old(State()), f)
    {
      match f
      case RosterAdd(_, member) =>
        if member != "" {
          members := members + {member};
          holdings := holdings + {(member, MEMBER)};
        }
      case RolesAssign(sender, member, names) =>
        var allowed := HasPermission(sender, ROLE_ASSIGN);
        if allowed && member != "" && member in members {
          var wanted := (names + {MEMBER} + if member == founder then {FOUNDER} else {}) * roles.Keys;
          if wanted != {} { ReplaceRoles(member, wanted); }
        }
      case RoleUpsert(sender, name, perms) =>
        var allowed := HasPermission(sender, ROLE_ASSIGN);
        var n := Text.Strip(name);
        if allowed && n != "" && n != FOUNDER && n != MEMBER { roles := roles[n := perms]; }
      case RoleDelete(sender, name) =>
        var allowed := HasPermission(sender, ROLE_ASSIGN);
        var n := Text.Strip(name);
        if allowed && n != "" && n != FOUNDER && n != ADMIN && n != MEMBER && n in roles {
          holdings := set a | a in holdings && a.1 != n;
          roles := roles - {n};
        }
      case Rotate(sender, gone, recipients, key) =>
        var canKick := HasPermission(sender, MEMBER_KICK);
        if (gone != "" && gone == sender) || canKick {
          if me in recipients { symkey := Some(key); }
          if gone != "" && gone != me { DropMember(gone); }
        }
    }

    /** `refresh_members`: merges the founder's roster. */
    method RefreshMembers(roster: Roster)
      modifies this
      ensures State() == Refresh(old(State()), roster)
    {
      var allowed := HasPermission(me, GROUP_READ);
      if allowed && me != founder {
        roles := roles + roster.roles;
        members := members + roster.members;
        holdings := holdings + roster.holdings;
      }
    }
  }
}
