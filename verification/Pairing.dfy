/** Pairing between two nodes: the row each keeps about the other, and the local and remote
    handlers that exchange tokens. A remote call is delivered and acknowledged, not delivered,
    or delivered with its reply lost. A session that is not committed is discarded. */
module Pairing {
  import opened Wrappers

  type Token = nat

  datatype PeerStatus = PendingIn | PendingOut | Trusted | TrustedPendingIn | TrustedPendingOut

  datatype Role = Master | Worker | Dual

  datatype Peer = Peer(
    status: PeerStatus,
    role: Role,
    my: Option<Token>,
    their: Option<Token>,
    key: Option<Token>)

  datatype Delivery = Acknowledged | Undelivered | ReplyLost

  /** The acting node's row, the other node's row, and the next unused random token. */
  datatype Net = Net(mine: Option<Peer>, theirs: Option<Peer>, next: Token)

  predicate Reaches(d: Delivery) {
    !d.Undelivered?
  }

  predicate TrustedStar(p: Peer) {
    p.status.Trusted? || p.status.TrustedPendingIn? || p.status.TrustedPendingOut?
  }

  // ---- handlers at the receiving node ----

  /** `/peer/request_join`. */
  function JoinAt(row: Option<Peer>): Option<Peer> {
    if row.None? then Some(Peer(PendingIn, Master, None, None, None))
    else if row.value.status == Trusted && row.value.role != Dual then Some(row.value.(status := TrustedPendingIn))
    else row
  }

  /** `/peer/callback_reject_dual`. */
  function RejectDualAt(row: Option<Peer>): Option<Peer> {
    if row.Some? && row.value.status == TrustedPendingOut then Some(row.value.(status := Trusted)) else row
  }

  /** `/peer/callback_accept`: `spare` is used only when this side has no token of its own yet. */
  function AcceptAt(row: Peer, token: Token, key: Token, spare: Token): Peer {
    var upgraded := row.status.Trusted? || row.status.TrustedPendingOut?;
    Peer(Trusted,
         if upgraded then Dual else Worker,
         Some(if row.my.Some? then row.my.value else spare),
         Some(token),
         Some(key))
  }

  /** The authentication of `/peer/callback_rotate_token`: the caller presents the token it holds. */
  predicate Authentic(row: Option<Peer>, presented: Option<Token>) {
    presented.Some? && row.Some? && row.value.my == presented && row.value.status == Trusted
  }

  // ---- handlers at the acting node ----

  /** `/local/request_peer`: the row is rolled back unless the call is acknowledged. */
  function RequestPeer(n: Net, d: Delivery): Net {
    if n.mine.Some? && !(n.mine.value.role == Master && n.mine.value.status == Trusted) then n
    else
      var theirs := if Reaches(d) then JoinAt(n.theirs) else n.theirs;
      if !d.Acknowledged? then n.(theirs := theirs)
      else if n.mine.None? then n.(mine := Some(Peer(PendingOut, Worker, None, None, None)), theirs := theirs)
      else n.(mine := Some(n.mine.value.(status := TrustedPendingOut)), theirs := theirs)
  }

  /** `reject`, `cancel` and `revoke`: the local row goes first. */
  function Remove(n: Net, d: Delivery): Net {
    if n.mine.None? then n
    else n.(mine := None, theirs := if Reaches(d) then None else n.theirs)
  }

  /** `reject_dual`, which does not look at the status it overwrites. */
  function RejectDual(n: Net, d: Delivery): Net {
    if n.mine.None? then n
    else n.(mine := Some(n.mine.value.(status := Trusted)),
            theirs := if Reaches(d) then RejectDualAt(n.theirs) else n.theirs)
  }

  /** `accept_dual` of a pending upgrade: it commits whatever became of the call. */
  function AcceptUpgrade(n: Net, d: Delivery): Net
    requires n.mine.Some?
  {
    var p := n.mine.value;
    var my := if p.my.Some? then p.my.value else n.next;
    var key := if p.key.Some? then p.key.value else n.next + 1;
    if n.theirs.None? || !Reaches(d) then
      n.(mine := Some(Peer(Trusted, Dual, Some(my), p.their, Some(key))), next := n.next + 3)
    else
      var q := AcceptAt(n.theirs.value, my, key, n.next + 2);
      n.(mine := Some(Peer(Trusted, Dual, Some(my), if d.Acknowledged? then q.my else p.their, Some(key))),
         theirs := Some(q), next := n.next + 3)
  }

  /** `accept`, and `accept_dual` of anything but a pending upgrade, which then asks for one. */
  function AcceptPeer(n: Net, dual: bool, d: Delivery, ask: Delivery): Net
    requires n.mine.Some?
  {
    var p := n.mine.value;
    var key := if p.key.Some? then p.key.value else n.next + 1;
    if n.theirs.None? || !Reaches(d) then n.(next := n.next + 3)
    else
      var q := AcceptAt(n.theirs.value, n.next, key, n.next + 2);
      if d.ReplyLost? then n.(theirs := Some(q), next := n.next + 3)
      else
        n.(mine := Some(Peer(Trusted, Master, Some(n.next), q.my, Some(key))),
           theirs := if dual && Reaches(ask) then JoinAt(Some(q)) else Some(q),
           next := n.next + 3)
  }

  function AcceptAny(n: Net, dual: bool, d: Delivery, ask: Delivery): Net {
    if n.mine.None? then n
    else if dual && n.mine.value.status == TrustedPendingIn then AcceptUpgrade(n, d)
    else AcceptPeer(n, dual, d, ask)
  }

  function RequestDual(n: Net, d: Delivery): Net {
    if n.mine.None? || n.mine.value.status != Trusted || n.mine.value.role == Dual then n
    else n.(mine := if d.Acknowledged? then Some(n.mine.value.(status := TrustedPendingOut)) else n.mine,
            theirs := if Reaches(d) then JoinAt(n.theirs) else n.theirs)
  }

  /** `/local/rotate_tokens` for this peer: the new token is kept only if it was acknowledged. */
  function Rotate(n: Net, d: Delivery): Net {
    if n.mine.None? || n.mine.value.status != Trusted || n.mine.value.their.None? then n
    else if !Reaches(d) || !Authentic(n.theirs, n.mine.value.their) then n.(next := n.next + 1)
    else n.(mine := if d.Acknowledged? then Some(n.mine.value.(my := Some(n.next))) else n.mine,
            theirs := Some(n.theirs.value.(their := Some(n.next))),
            next := n.next + 1)
  }

  datatype Action =
    | DoRequestPeer(d: Delivery)
    | DoRemove(d: Delivery)
    | DoRejectDual(d: Delivery)
    | DoAccept(dual: bool, d: Delivery, ask: Delivery)
    | DoRequestDual(d: Delivery)
    | DoRotate(d: Delivery)

  function Act(n: Net, a: Action): Net {
    match a
    case DoRequestPeer(d) => RequestPeer(n, d)
    case DoRemove(d) => Remove(n, d)
    case DoRejectDual(d) => RejectDual(n, d)
    case DoAccept(dual, d, ask) => AcceptAny(n, dual, d, ask)
    case DoRequestDual(d) => RequestDual(n, d)
    case DoRotate(d) => Rotate(n, d)
  }

  function Flip(n: Net): Net {
    Net(n.theirs, n.mine, n.next)
  }

  /** Either node may act. */
  datatype Step = Step(first: bool, action: Action)

  function Apply(n: Net, s: Step): Net {
    if s.first then Act(n, s.action) else Flip(Act(Flip(n), s.action))
  }

  function Exec(n: Net, steps: seq<Step>): Net {
    if steps == [] then n else Apply(Exec(n, steps[..|steps| - 1]), steps[|steps| - 1])
  }

  const STRANGERS := Net(None, None, 0)
}

/** Credential agreement and role separation over every run of the pairing protocol. */
module PairingTheorems {
  import opened Wrappers
  import opened Pairing

  predicate HasCredentials(p: Peer) {
    p.my.Some? && p.their.Some? && p.key.Some?
  }

  predicate NoCredentials(p: Peer) {
    p.my.None? && p.their.None? && p.key.None?
  }

  predicate Below(t: Option<Token>, limit: Token) {
    t.Some? ==> t.value < limit
  }

  /** A trusted row carries a full set of credentials, a pending one carries none. */
  predicate RowOk(row: Option<Peer>, next: Token) {
    row.Some? ==>
      && (if TrustedStar(row.value) then HasCredentials(row.value) else NoCredentials(row.value))
      && Below(row.value.my, next) && Below(row.value.their, next) && Below(row.value.key, next)
  }

  predicate BothTrusted(n: Net) {
    n.mine.Some? && n.theirs.Some? && TrustedStar(n.mine.value) && TrustedStar(n.theirs.value)
  }

  predicate Agree(p: Peer, q: Peer) {
    p.their == q.my && q.their == p.my && p.key == q.key
  }

  /** The property itself: two nodes that trust each other agree. */
  predicate Agreed(n: Net) {
    BothTrusted(n) ==> Agree(n.mine.value, n.theirs.value)
  }

  // ---- agreement ----

  /** What rows look like whatever happens: a pending one carries no credentials, a node's own token and the
      key come together, and nobody has the other's token alone. */
  predicate RowShape(row: Option<Peer>, next: Token) {
    row.Some? ==>
      && (!TrustedStar(row.value) ==> NoCredentials(row.value))
      && (row.value.my.Some? <==> row.value.key.Some?) && (row.value.their.Some? ==> row.value.my.Some?)
      && Below(row.value.my, next) && Below(row.value.their, next) && Below(row.value.key, next)
  }

  predicate Shaped(n: Net) {
    RowShape(n.mine, n.next) && RowShape(n.theirs, n.next)
  }

  lemma UpgradeShaped(n: Net, d: Delivery)
    requires Shaped(n) && n.mine.Some? && TrustedStar(n.mine.value)
    ensures Shaped(AcceptUpgrade(n, d))
  {
  }

  lemma AcceptShaped(n: Net, dual: bool, d: Delivery, ask: Delivery)
    requires Shaped(n) && n.mine.Some?
    ensures Shaped(AcceptPeer(n, dual, d, ask))
  {
  }

  lemma RotateShaped(n: Net, d: Delivery)
    requires Shaped(n)
    ensures Shaped(Rotate(n, d))
  {
  }

  lemma RequestShaped(n: Net, d: Delivery)
    requires Shaped(n)
    ensures Shaped(RequestPeer(n, d)) && Shaped(RequestDual(n, d))
  {
  }

  lemma ActShaped(n: Net, a: Action)
    requires Shaped(n)
    ensures Shaped(Act(n, a))
  {
    match a
    case DoRequestPeer(d) => RequestShaped(n, d);
    case DoRemove(_) =>
    case DoRejectDual(_) =>
    case DoAccept(dual, d, ask) =>
      if n.mine.Some? {
        AcceptShaped(n, dual, d, ask);
        if n.mine.value.status == TrustedPendingIn { UpgradeShaped(n, d); }
      }
    case DoRequestDual(d) => RequestShaped(n, d);
    case DoRotate(d) => RotateShaped(n, d);
  }

  lemma StepShaped(n: Net, s: Step)
    requires Shaped(n)
    ensures Shaped(Apply(n, s))
  {
    ActShaped(if s.first then n else Flip(n), s.action);
  }

  lemma {:induction false} ExecShaped(steps: seq<Step>)
    ensures Shaped(Exec(STRANGERS, steps))
  {
    if steps == [] {
    } else {
      ExecShaped(steps[..|steps| - 1]);
      StepShaped(Exec(STRANGERS, steps[..|steps| - 1]), steps[|steps| - 1]);
    }
  }

  /** The actions that leave two trusting nodes disagreeing, each with the guard of its handler: a dual
      rejection of an untrusted row when the other trusts and has credentials; an upgrade that the other
      took and answered in vain with a new token, or never got while this side makes up its first; any
      other accept of a trusted row whose reply is lost; and a rotation whose reply is lost. */
  predicate Disagrees(n: Net, a: Action) {
    && n.mine.Some? && n.theirs.Some?
    && (var p, q := n.mine.value, n.theirs.value;
        match a
        case DoRejectDual(_) => !TrustedStar(p) && TrustedStar(q) && !NoCredentials(q)
        case DoAccept(dual, d, _) =>
          if dual && p.status == TrustedPendingIn then
            (d.ReplyLost? && q.my.None?) || (d.Undelivered? && TrustedStar(q) && p.my.None?)
          else d.ReplyLost? && TrustedStar(p)
        case DoRotate(d) => d.ReplyLost? && p.status == Trusted && q.status == Trusted && p.their.Some?
        case _ => false)
  }

  /** An action keeps two trusting nodes in agreement exactly when it is not one of those. */
  lemma ActAgreesIff(n: Net, a: Action)
    requires Shaped(n) && Agreed(n)
    ensures Agreed(Act(n, a)) <==> !Disagrees(n, a)
  {
  }

  predicate StepDisagrees(n: Net, s: Step) {
    Disagrees(if s.first then n else Flip(n), s.action)
  }

  lemma StepAgreesIff(n: Net, s: Step)
    requires Shaped(n) && Agreed(n)
    ensures Agreed(Apply(n, s)) <==> !StepDisagrees(n, s)
  {
    ActAgreesIff(if s.first then n else Flip(n), s.action);
  }

  ghost predicate AgreedUpTo(steps: seq<Step>, k: nat)
    requires k <= |steps|
  {
    forall i :: 0 <= i <= k ==> Agreed(Exec(STRANGERS, steps[..i]))
  }

  ghost predicate NoneDisagrees(steps: seq<Step>, k: nat)
    requires k <= |steps|
  {
    forall i :: 0 <= i < k ==> !StepDisagrees(Exec(STRANGERS, steps[..i]), steps[i])
  }

  lemma {:induction false} RunAgreesUpTo(steps: seq<Step>, k: nat)
    requires k <= |steps|
    ensures AgreedUpTo(steps, k) <==> NoneDisagrees(steps, k)
  {
    if k == 0 {
      assert steps[..0] == [];
    } else {
      RunAgreesUpTo(steps, k - 1);
      ExecNext(steps, k - 1);
      ExecShaped(steps[..k - 1]);
      if AgreedUpTo(steps, k - 1) {
        StepAgreesIff(Exec(STRANGERS, steps[..k - 1]), steps[k - 1]);
      }
    }
  }

  /** Throughout a run two trusting nodes agree exactly when no step of it makes them disagree. */
  lemma RunAgreesIff(steps: seq<Step>)
    ensures AgreedUpTo(steps, |steps|) <==> NoneDisagrees(steps, |steps|)
  {
    RunAgreesUpTo(steps, |steps|);
  }

  // ---- agreement with full credentials ----

  /** Beyond agreement: every trusted row has all its credentials. */
  predicate PairOk(n: Net) {
    && RowOk(n.mine, n.next) && RowOk(n.theirs, n.next)
    && (BothTrusted(n) ==> Agree(n.mine.value, n.theirs.value))
  }

  /** The steps that break this: a dual rejection of a row that was never trusted, and a lost reply where
      the other node has already committed to credentials this one will not keep. */
  predicate Breaks(n: Net, a: Action) {
    match a
    case DoRejectDual(_) => n.mine.Some? && !TrustedStar(n.mine.value)
    case DoAccept(dual, d, _) =>
      && d.ReplyLost? && n.mine.Some? && n.theirs.Some?
      && (if dual && n.mine.value.status == TrustedPendingIn then !TrustedStar(n.theirs.value)
          else TrustedStar(n.mine.value))
    case DoRotate(d) =>
      && d.ReplyLost? && n.mine.Some? && n.mine.value.status == Trusted
      && n.theirs.Some? && n.theirs.value.status == Trusted
    case _ => false
  }

  lemma AcceptKeepsPairIff(n: Net, dual: bool, d: Delivery, ask: Delivery)
    requires PairOk(n)
    ensures PairOk(AcceptAny(n, dual, d, ask)) <==> !Breaks(n, DoAccept(dual, d, ask))
  {
  }

  /** An action keeps agreement and full credentials exactly when it is not one of those. */
  lemma ActKeepsPairIff(n: Net, a: Action)
    requires PairOk(n)
    ensures PairOk(Act(n, a)) <==> !Breaks(n, a)
  {
    if a.DoAccept? { AcceptKeepsPairIff(n, a.dual, a.d, a.ask); }
  }

  predicate StepBreaks(n: Net, s: Step) {
    Breaks(if s.first then n else Flip(n), s.action)
  }

  lemma StepKeepsPairIff(n: Net, s: Step)
    requires PairOk(n)
    ensures PairOk(Apply(n, s)) <==> !StepBreaks(n, s)
  {
    ActKeepsPairIff(if s.first then n else Flip(n), s.action);
  }

  /** All is well after each of the first `k` steps, and before them. */
  ghost predicate PairOkUpTo(steps: seq<Step>, k: nat)
    requires k <= |steps|
  {
    forall i :: 0 <= i <= k ==> PairOk(Exec(STRANGERS, steps[..i]))
  }

  ghost predicate NoneBreaks(steps: seq<Step>, k: nat)
    requires k <= |steps|
  {
    forall i :: 0 <= i < k ==> !StepBreaks(Exec(STRANGERS, steps[..i]), steps[i])
  }

  lemma ExecNext(steps: seq<Step>, k: nat)
    requires k < |steps|
    ensures Exec(STRANGERS, steps[..k + 1]) == Apply(Exec(STRANGERS, steps[..k]), steps[k])
  {
    assert steps[..k + 1][..k] == steps[..k];
  }

  lemma {:induction false} RunKeepsPairUpTo(steps: seq<Step>, k: nat)
    requires k <= |steps|
    ensures PairOkUpTo(steps, k) <==> NoneBreaks(steps, k)
  {
    if k == 0 {
      assert steps[..0] == [];
    } else {
      RunKeepsPairUpTo(steps, k - 1);
      ExecNext(steps, k - 1);
      if PairOkUpTo(steps, k - 1) {
        StepKeepsPairIff(Exec(STRANGERS, steps[..k - 1]), steps[k - 1]);
      }
    }
  }

  /** Throughout a run trusted rows have full credentials that agree exactly when no step breaks that. */
  lemma RunKeepsPairIff(steps: seq<Step>)
    ensures PairOkUpTo(steps, |steps|) <==> NoneBreaks(steps, |steps|)
  {
    RunKeepsPairUpTo(steps, |steps|);
  }

  /** A lost reply to a call that changes credentials. */
  predicate LosesReply(a: Action) {
    match a
    case DoAccept(_, d, _) => d.ReplyLost?
    case DoRotate(d) => d.ReplyLost?
    case _ => false
  }

  /** No such reply is lost, and a dual upgrade is rejected only by a node that trusts the other. */
  ghost predicate Careful(steps: seq<Step>) {
    forall i :: 0 <= i < |steps| ==>
      && !LosesReply(steps[i].action)
      && (steps[i].action.DoRejectDual? ==> !StepBreaks(Exec(STRANGERS, steps[..i]), steps[i]))
  }

  /** The two never record each other as plain worker, nor as plain master. */
  predicate RolesApart(n: Net) {
    BothTrusted(n) ==> n.mine.value.role != n.theirs.value.role || n.mine.value.role == Dual
  }

  /** The steps that would make the roles coincide. */
  predicate RolesCollide(n: Net, a: Action) {
    match a
    case DoRejectDual(_) =>
      && n.mine.Some? && n.theirs.Some? && !TrustedStar(n.mine.value) && TrustedStar(n.theirs.value)
      && n.mine.value.role == n.theirs.value.role && n.mine.value.role != Dual
    case DoAccept(dual, d, _) =>
      && d.ReplyLost? && n.mine.Some? && n.theirs.Some?
      && !(dual && n.mine.value.status == TrustedPendingIn)
      && TrustedStar(n.mine.value) && n.mine.value.role == Worker
      && !n.theirs.value.status.Trusted? && !n.theirs.value.status.TrustedPendingOut?
    case _ => false
  }

  lemma RolesApartIff(n: Net, a: Action)
    requires RolesApart(n)
    ensures RolesApart(Act(n, a)) <==> !RolesCollide(n, a)
  {
  }

  predicate StepCollides(n: Net, s: Step) {
    RolesCollide(if s.first then n else Flip(n), s.action)
  }

  lemma StepRolesIff(n: Net, s: Step)
    requires RolesApart(n)
    ensures RolesApart(Apply(n, s)) <==> !StepCollides(n, s)
  {
    RolesApartIff(if s.first then n else Flip(n), s.action);
  }

  ghost predicate ApartUpTo(steps: seq<Step>, k: nat)
    requires k <= |steps|
  {
    forall i :: 0 <= i <= k ==> RolesApart(Exec(STRANGERS, steps[..i]))
  }

  ghost predicate NoneCollides(steps: seq<Step>, k: nat)
    requires k <= |steps|
  {
    forall i :: 0 <= i < k ==> !StepCollides(Exec(STRANGERS, steps[..i]), steps[i])
  }

  lemma {:induction false} RolesApartUpTo(steps: seq<Step>, k: nat)
    requires k <= |steps|
    ensures ApartUpTo(steps, k) <==> NoneCollides(steps, k)
  {
    if k == 0 {
      assert steps[..0] == [];
    } else {
      RolesApartUpTo(steps, k - 1);
      ExecNext(steps, k - 1);
      if ApartUpTo(steps, k - 1) {
        StepRolesIff(Exec(STRANGERS, steps[..k - 1]), steps[k - 1]);
      }
    }
  }

  /** Throughout a run the roles stay apart exactly when no step of it makes them collide. */
  lemma RunRolesIff(steps: seq<Step>)
    ensures ApartUpTo(steps, |steps|) <==> NoneCollides(steps, |steps|)
  {
    RolesApartUpTo(steps, |steps|);
  }

  /** They do collide: the accepter forgets the pair unnoticed and asks to join anew; the requester's
      accept arrives and its reply is lost. Now each takes the other for its worker. */
  lemma RolesCollideInARun()
    ensures var steps := [Step(true, DoRequestPeer(Acknowledged)), Step(false, DoAccept(false, Acknowledged, Acknowledged)),
                          Step(false, DoRemove(Undelivered)), Step(false, DoRequestPeer(Acknowledged)),
                          Step(true, DoAccept(false, ReplyLost, Acknowledged))];
            var n := Exec(STRANGERS, steps);
            BothTrusted(n) && n.mine.value.role == Worker && n.theirs.value.role == Worker
  {
    var a, b := Step(true, DoRequestPeer(Acknowledged)), Step(false, DoAccept(false, Acknowledged, Acknowledged));
    var c, d := Step(false, DoRemove(Undelivered)), Step(false, DoRequestPeer(Acknowledged));
    var e := Step(true, DoAccept(false, ReplyLost, Acknowledged));
    var steps := [a, b, c, d, e];
    assert steps[..0] == [] && steps[..5] == steps;
    ExecNext(steps, 0);
    ExecNext(steps, 1);
    ExecNext(steps, 2);
    ExecNext(steps, 3);
    ExecNext(steps, 4);
  }

  /** Pairing over every careful run: whenever both nodes trust each other their credentials agree
      and their roles are apart. */
  lemma {:induction false} CarefulPairing(steps: seq<Step>)
    requires Careful(steps)
    ensures PairOk(Exec(STRANGERS, steps)) && RolesApart(Exec(STRANGERS, steps))
  {
    if steps == [] {
    } else {
      var front, s := steps[..|steps| - 1], steps[|steps| - 1];
      assert forall i :: 0 <= i < |front| ==> steps[i] == front[i] && steps[..i] == front[..i];
      CarefulPairing(front);
      var n := Exec(STRANGERS, front);
      StepKeepsPairIff(n, s);
      RolesApartIff(if s.first then n else Flip(n), s.action);
    }
  }

  /** Whatever went wrong before, one acknowledged accept between two nodes that still have rows
      brings their credentials back into agreement. */
  lemma AcceptHeals(n: Net, dual: bool, ask: Delivery)
    requires n.mine.Some? && n.theirs.Some?
    ensures var m := Act(n, DoAccept(dual, Acknowledged, ask));
            && BothTrusted(m) && Agree(m.mine.value, m.theirs.value)
            && HasCredentials(m.mine.value) && HasCredentials(m.theirs.value)
  {
  }

  // ---- revocation ----

  predicate MyFrom(row: Option<Peer>, base: Token) {
    row.Some? && row.value.my.Some? ==> base <= row.value.my.value
  }

  lemma MyFromStep(n: Net, s: Step, base: Token)
    requires MyFrom(n.mine, base) && base <= n.next
    ensures MyFrom(Apply(n, s).mine, base) && base <= Apply(n, s).next
  {
  }

  /** A revoked token stays dead: once a node has dropped its row, no token it had issued before is
      ever accepted by it again, whatever the other side still holds and however they pair anew. */
  lemma {:induction false} RevokedTokenStaysDead(n: Net, steps: seq<Step>, earlier: Token)
    requires n.mine.None? && earlier < n.next
    ensures !Authentic(Exec(n, steps).mine, Some(earlier))
  {
    RevokedFrom(n, steps);
  }

  lemma {:induction false} RevokedFrom(n: Net, steps: seq<Step>)
    requires n.mine.None?
    ensures MyFrom(Exec(n, steps).mine, n.next) && n.next <= Exec(n, steps).next
  {
    if steps == [] {
    } else {
      RevokedFrom(n, steps[..|steps| - 1]);
      MyFromStep(Exec(n, steps[..|steps| - 1]), steps[|steps| - 1], n.next);
    }
  }

  /** A removal takes the acting node's row, and the other's exactly when the call gets through. */
  lemma RemovalClears(n: Net, d: Delivery)
    ensures var m := Act(n, DoRemove(d));
            && m.mine.None? && m.next == n.next
            && m.theirs == if n.mine.Some? && !d.Undelivered? then None else n.theirs
  {
  }

  lemma FlipStep(n: Net, s: Step)
    ensures Flip(Apply(n, s)) == Apply(Flip(n), Step(!s.first, s.action))
  {
  }

  function FlipAll(steps: seq<Step>): (flipped: seq<Step>)
    ensures |flipped| == |steps|
  {
    seq(|steps|, i requires 0 <= i < |steps| => Step(!steps[i].first, steps[i].action))
  }

  /** The protocol looks the same from either side. */
  lemma {:induction false} FlipRun(n: Net, steps: seq<Step>)
    ensures Flip(Exec(n, steps)) == Exec(Flip(n), FlipAll(steps))
    decreases |steps|
  {
    if steps == [] {
    } else {
      var front := steps[..|steps| - 1];
      FlipRun(n, front);
      FlipStep(Exec(n, front), steps[|steps| - 1]);
      assert FlipAll(steps)[..|steps| - 1] == FlipAll(front);
    }
  }

  /** After a removal that got through, no token either node issued before it is ever honoured again by
      either, in whatever follows. */
  lemma RemovedTokensStayDead(n: Net, d: Delivery, steps: seq<Step>, earlier: Token)
    requires n.mine.Some? && !d.Undelivered? && earlier < n.next
    ensures var m := Exec(Act(n, DoRemove(d)), steps);
            !Authentic(m.mine, Some(earlier)) && !Authentic(m.theirs, Some(earlier))
  {
    var m := Act(n, DoRemove(d));
    RevokedTokenStaysDead(m, steps, earlier);
    FlipRun(m, steps);
    RevokedTokenStaysDead(Flip(m), FlipAll(steps), earlier);
  }

  /** From there they can pair anew: both end trusted, and agree on credentials none of which is old. */
  lemma PairAnew(n: Net, d: Delivery)
    requires n.mine.Some? && !d.Undelivered?
    ensures var k := Apply(Act(n, DoRemove(d)), Step(true, DoRequestPeer(Acknowledged)));
            var m := Apply(k, Step(false, DoAccept(false, Acknowledged, Acknowledged)));
            && BothTrusted(m) && Agree(m.mine.value, m.theirs.value)
            && HasCredentials(m.mine.value) && m.mine.value.my.value >= n.next && m.theirs.value.my.value >= n.next
            && m.mine.value.key.value >= n.next
  {
    Handshake(Act(n, DoRemove(d)));
  }

  // ---- requests, rejections and rotations ----

  /** A request between strangers leaves both pending, or nothing here if it was not acknowledged. */
  lemma RequestPends(n: Net, d: Delivery)
    requires n.mine.None? && n.theirs.None?
    ensures var m := Act(n, DoRequestPeer(d));
            && m.mine == (if d.Acknowledged? then Some(Peer(PendingOut, Worker, None, None, None)) else None)
            && m.theirs == (if d.Undelivered? then None else Some(Peer(PendingIn, Master, None, None, None)))
  {
  }

  predicate Plain(row: Option<Peer>) {
    row.Some? && row.value.status == Trusted && row.value.role != Dual
  }

  /** An upgrade that is asked for and then rejected leaves everything as it was. */
  lemma RejectionUndoes(n: Net)
    requires Plain(n.mine) && Plain(n.theirs)
    ensures var k := Apply(n, Step(true, DoRequestDual(Acknowledged)));
            && k.mine.value.status == TrustedPendingOut && k.theirs.value.status == TrustedPendingIn
            && Apply(k, Step(false, DoRejectDual(Acknowledged))) == n
  {
  }

  /** An upgrade that is asked for and then accepted makes both dual, with the credentials they had. */
  lemma UpgradeMakesDual(n: Net)
    requires Plain(n.mine) && Plain(n.theirs) && Agree(n.mine.value, n.theirs.value)
    requires HasCredentials(n.mine.value) && HasCredentials(n.theirs.value)
    ensures var k := Apply(n, Step(true, DoRequestDual(Acknowledged)));
            var m := Apply(k, Step(false, DoAccept(true, Acknowledged, Acknowledged)));
            && m.mine == Some(n.mine.value.(role := Dual)) && m.theirs == Some(n.theirs.value.(role := Dual))
  {
  }

  /** The same through a second request by the node that records a master. */
  lemma SecondRequestUpgrades(n: Net)
    requires Plain(n.mine) && n.mine.value.role == Master && Plain(n.theirs)
    ensures Apply(n, Step(true, DoRequestPeer(Acknowledged))) == Apply(n, Step(true, DoRequestDual(Acknowledged)))
  {
  }

  /** A rotation that is acknowledged keeps two trusting nodes in agreement, on a new token in place of the
      old, which is dead from then on. */
  lemma RotationReplaces(n: Net)
    requires PairOk(n) && BothTrusted(n)
    requires n.mine.value.status == Trusted && n.theirs.value.status == Trusted
    ensures var m := Act(n, DoRotate(Acknowledged));
            && BothTrusted(m) && Agree(m.mine.value, m.theirs.value)
            && m.mine.value == n.mine.value.(my := Some(n.next)) && m.theirs.value == n.theirs.value.(their := Some(n.next))
            && Authentic(m.mine, m.theirs.value.their) && !Authentic(m.mine, n.theirs.value.their)
  {
  }

  /** A call that never arrives leaves both rows, unless it is a removal, a rejection or the accept of an
      upgrade, which commit here first. */
  lemma UndeliveredKeeps(n: Net, a: Action)
    requires a.d.Undelivered? && !a.DoRemove? && !a.DoRejectDual?
    requires !(a.DoAccept? && a.dual && n.mine.Some? && n.mine.value.status == TrustedPendingIn)
    ensures Act(n, a).mine == n.mine && Act(n, a).theirs == n.theirs
  {
  }

  // ---- the two handshakes ----

  /** Request and accept: the requester records a worker, the accepter a master. */
  lemma Handshake(n: Net)
    requires n.mine.None? && n.theirs.None?
    ensures var m := Apply(Apply(n, Step(true, DoRequestPeer(Acknowledged))),
                           Step(false, DoAccept(false, Acknowledged, Acknowledged)));
            && BothTrusted(m) && Agree(m.mine.value, m.theirs.value)
            && m.mine.value.role == Worker && m.theirs.value.role == Master
            && m.mine.value.status == Trusted && m.theirs.value.status == Trusted
  {
  }

  /** With a dual accept the requester must accept in turn, and then both are dual. */
  lemma DualHandshake(n: Net)
    requires n.mine.None? && n.theirs.None?
    ensures var k := Apply(Apply(n, Step(true, DoRequestPeer(Acknowledged))),
                           Step(false, DoAccept(true, Acknowledged, Acknowledged)));
            var m := Apply(k, Step(true, DoAccept(true, Acknowledged, Acknowledged)));
            && k.mine.value.status == TrustedPendingIn && k.theirs.value.role != Dual
            && BothTrusted(m) && Agree(m.mine.value, m.theirs.value)
            && m.mine.value.role == Dual && m.theirs.value.role == Dual
  {
  }

  /** The delivery condition is needed: a rotation whose reply is lost leaves two trusting nodes that disagree. */
  lemma LostRotationDisagrees(n: Net)
    requires PairOk(n) && BothTrusted(n)
    requires n.mine.value.status == Trusted && n.theirs.value.status == Trusted
    ensures var m := Act(n, DoRotate(ReplyLost));
            BothTrusted(m) && !Agree(m.mine.value, m.theirs.value)
  {
  }
}

/** The same handlers as they run: two node objects that update their own rows in place. */
module PairingNodes {
  import opened Wrappers
  import opened Pairing

  /** Source of unpredictable tokens; drawing one never repeats. */
  class TokenSource {
    var next: Token

    method Draw() returns (t: Token)
      modifies this
      ensures t == old(next) && next == old(next) + 1
    {
      t := next;
      next := next + 1;
    }
  }

  class Node {
    var row: Option<Peer>

    ghost function View(other: Node, source: TokenSource): Net
      reads this, other, source
    {
      Net(row, other.row, source.next)
    }

    method ReceiveJoin()
      modifies this
      ensures row == JoinAt(old(row))
    {
      if row.None? {
        row := Some(Peer(PendingIn, Master, None, None, None));
      } else if row.value.status == Trusted && row.value.role != Dual {
        row := Some(row.value.(status := TrustedPendingIn));
      }
    }

    /** Answers 404 when there is no row to accept. */
    method ReceiveAccept(token: Token, key: Token, source: TokenSource) returns (reply: Option<(Token, Token)>)
      modifies this, source
      ensures source.next == old(source.next) + 1
      ensures old(row).None? ==> row.None? && reply.None?
      ensures old(row).Some? ==>
                && row == Some(AcceptAt(old(row.value), token, key, old(source.next)))
                && reply == Some((row.value.my.value, key))
    {
      var spare := source.Draw();
      if row.None? {
        return None;
      }
      var p := row.value;
      p := p.(their := Some(token), key := Some(key));
      if p.my.None? {
        p := p.(my := Some(spare));
      }
      if p.status.Trusted? || p.status.TrustedPendingOut? {
        p := p.(role := Dual);
      } else {
        p := p.(role := Worker);
      }
      row := Some(p.(status := Trusted));
      reply := Some((p.my.value, key));
    }

    /** `/local/manage_peer` with action `accept` or `accept_dual`. */
    method Accept(other: Node, source: TokenSource, dual: bool, d: Delivery, ask: Delivery)
      requires this != other
      modifies this, other, source
      ensures old(row).Some? ==> View(other, source) == Act(old(View(other, source)), DoAccept(dual, d, ask))
      ensures old(row).None? ==> View(other, source) == old(View(other, source))
    {
      if row.None? {
        return;
      }
      var p := row.value;
      var freshToken := source.Draw();
      var freshKey := source.Draw();
      var key := if p.key.Some? then p.key.value else freshKey;
      var upgrade := dual && p.status == TrustedPendingIn;
      var my := if upgrade && p.my.Some? then p.my.value else freshToken;
      var reply := None;
      if d.Undelivered? {
        var _ := source.Draw();
      } else {
        reply := other.ReceiveAccept(my, key, source);
        if d.ReplyLost? {
          reply := None;
        }
      }
      if upgrade {
        row := Some(Peer(Trusted, Dual, Some(my), if reply.Some? then Some(reply.value.0) else p.their, Some(key)));
      } else if reply.Some? {
        row := Some(Peer(Trusted, Master, Some(my), Some(reply.value.0), Some(key)));
        if dual && Reaches(ask) {
          other.ReceiveJoin();
        }
      }
    }

    /** `/local/request_peer`: commit the pending row, call, roll back unless acknowledged. */
    method RequestPeer(other: Node, source: TokenSource, d: Delivery)
      requires this != other
      modifies this, other
      ensures View(other, source) == Act(old(View(other, source)), DoRequestPeer(d))
    {
      if row.None? {
        row := Some(Peer(PendingOut, Worker, None, None, None));
      } else if row.value.role == Master && row.value.status == Trusted {
        row := Some(row.value.(status := TrustedPendingOut));
      } else {
        return;
      }
      if Reaches(d) {
        other.ReceiveJoin();
      }
      if !d.Acknowledged? {
        if row.value.status == PendingOut {
          row := None;
        } else if row.value.status == TrustedPendingOut {
          row := Some(row.value.(status := Trusted));
        }
      }
    }

    /** `/peer/callback_remove`. */
    method ReceiveRemove()
      modifies this
      ensures row == None
    {
      row := None;
    }

    /** `/local/manage_peer` with action `reject`, `cancel` or `revoke`. */
    method Remove(other: Node, source: TokenSource, d: Delivery)
      requires this != other
      modifies this, other
      ensures View(other, source) == Act(old(View(other, source)), DoRemove(d))
    {
      if row.None? {
        return;
      }
      row := None;
      if Reaches(d) {
        other.ReceiveRemove();
      }
    }

    /** `/peer/callback_reject_dual`. */
    method ReceiveRejectDual()
      modifies this
      ensures row == RejectDualAt(old(row))
    {
      if row.Some? && row.value.status == TrustedPendingOut {
        row := Some(row.value.(status := Trusted));
      }
    }

    /** `/local/manage_peer` with action `reject_dual`. */
    method RejectDual(other: Node, source: TokenSource, d: Delivery)
      requires this != other
      modifies this, other
      ensures View(other, source) == Act(old(View(other, source)), DoRejectDual(d))
    {
      if row.None? {
        return;
      }
      row := Some(row.value.(status := Trusted));
      if Reaches(d) {
        other.ReceiveRejectDual();
      }
    }

    /** `/local/manage_peer` with action `request_dual`. */
    method RequestDual(other: Node, source: TokenSource, d: Delivery)
      requires this != other
      modifies this, other
      ensures View(other, source) == Act(old(View(other, source)), DoRequestDual(d))
    {
      if row.None? || row.value.status != Trusted || row.value.role == Dual {
        return;
      }
      if Reaches(d) {
        other.ReceiveJoin();
      }
      if d.Acknowledged? {
        row := Some(row.value.(status := TrustedPendingOut));
      }
    }

    /** `/local/rotate_tokens`. */
    method Rotate(other: Node, source: TokenSource, d: Delivery)
      requires this != other
      modifies this, other, source
      ensures View(other, source) == Act(old(View(other, source)), DoRotate(d))
    {
      if row.None? || row.value.status != Trusted || row.value.their.None? {
        return;
      }
      var token := source.Draw();
      if Reaches(d) && Authentic(other.row, row.value.their) {
        other.row := Some(other.row.value.(their := Some(token)));
        if d.Acknowledged? {
          row := Some(row.value.(my := Some(token)));
        }
      }
    }
  }
}
