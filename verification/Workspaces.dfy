/** Workspaces, memberships, invitations and platform roles: the tables and every operation that writes them.
    Clock readings are seconds. */
module Workspaces {
  import opened Tables

  datatype Role = Owner | Member
  datatype MembershipStatus = Active | Left | Removed
  datatype InvitationStatus = Pending | Accepted | Declined | Cancelled | Expired

  datatype User = User(staff: bool, superuser: bool, active: bool, deleted: bool)
  /** `limit` is the member limit of the plan the workspace is entitled to. */
  datatype Tenant = Tenant(active: bool, closed: bool, limit: nat)
  datatype Membership = Membership(user: nat, tenant: nat, role: Role, status: MembershipStatus)
  datatype Invitation = Invitation(tenant: nat, user: nat, status: InvitationStatus, expires: int)

  datatype World = World(users: seq<User>, tenants: seq<Tenant>, members: seq<Membership>, invites: seq<Invitation>)

  datatype Refusal =
    | NotFound | WorkspaceLimitReached | SlugAlreadyTaken | UserNotFound | AlreadyAMember | WorkspaceUnavailable
    | InvitationAlreadyPending | MemberLimitReached | InvitationNotFound | InvitationNotPending
    | LastOwnerCannotLeave | MembershipNotRemovable | InvalidOwnershipTransfer | WorkspaceNotEmpty
    | NotActive | LastWorkspaceOwnerProtected | OwnsWorkspaces | LastRootAccount | LastRootProtected

  datatype Reply = Done | Refused(code: Refusal)

  const INVITATION_EXPIRY := 1209600

  predicate IsRoot(u: User) { u.staff && u.superuser && u.active }
  predicate OwnsTenant(m: Membership, t: nat) { m.tenant == t && m.role.Owner? && m.status.Active? }

  predicate OtherRoot(users: seq<User>, u: nat) {
    exists j :: 0 <= j < |users| && j != u && IsRoot(users[j])
  }
  predicate OtherOwner(members: seq<Membership>, t: nat, k: nat) {
    exists j :: 0 <= j < |members| && j != k && OwnsTenant(members[j], t)
  }

  // ---------- seats ----------

  function ActiveMember(t: nat): Membership -> int {
    (m: Membership) => if m.tenant == t && m.role.Member? && m.status.Active? then 1 else 0
  }
  function Reserved(t: nat, now: int): Invitation -> int {
    (i: Invitation) => if i.tenant == t && i.status.Pending? && i.expires > now then 1 else 0
  }

  /** Active members plus the seats that unexpired invitations reserve. */
  function SeatsUsed(w: World, t: nat, now: int): int {
    Sum(w.members, ActiveMember(t)) + Sum(w.invites, Reserved(t, now))
  }

  function OwnedBy(u: nat, tenants: seq<Tenant>): Membership -> int {
    (m: Membership) =>
      if m.user == u && m.role.Owner? && m.status.Active? && m.tenant < |tenants| && !tenants[m.tenant].closed then 1
      else 0
  }

  predicate Available(t: Tenant) { t.active && !t.closed }

  // ---------- lookups ----------

  function RowOf(u: nat, t: nat): Membership -> bool { (m: Membership) => m.user == u && m.tenant == t }
  function ActiveRowOf(u: nat, t: nat): Membership -> bool {
    (m: Membership) => m.user == u && m.tenant == t && m.status.Active?
  }
  function PendingFor(u: nat, t: nat): Invitation -> bool {
    (i: Invitation) => i.user == u && i.tenant == t && i.status.Pending?
  }

  /** A queryset update touches every matching row. */
  function UpdateAll<T>(rows: seq<T>, f: T -> T): (r: seq<T>)
    ensures |r| == |rows| && forall i :: 0 <= i < |rows| ==> r[i] == f(rows[i])
  {
    seq(|rows|, i requires 0 <= i < |rows| => f(rows[i]))
  }

  datatype Scope = OfTenant(tenant: nat) | OfUser(user: nat)

  predicate InScope(s: Scope, i: Invitation) {
    match s
    case OfTenant(t) => i.tenant == t
    case OfUser(u) => i.user == u
  }

  /** `_expire_stale` */
  function ExpireIn(s: Scope, now: int): Invitation -> Invitation {
    (i: Invitation) => if InScope(s, i) && i.status.Pending? && i.expires <= now then i.(status := Expired) else i
  }

  function Expire(w: World, s: Scope, now: int): World { w.(invites := UpdateAll(w.invites, ExpireIn(s, now))) }

  /** What `respond` commits before it decides. */
  function ExpireOne(w: World, i: nat, user: nat, now: int): World {
    if i < |w.invites| && w.invites[i].user == user && w.invites[i].status.Pending? && w.invites[i].expires <= now
    then w.(invites := w.invites[i := w.invites[i].(status := Expired)]) else w
  }

  // ---------- workspaces ----------

  function CreateTenant(w: World, user: nat, accountLimit: nat, slugTaken: bool, seatLimit: nat): (World, Reply) {
    if user >= |w.users| then (w, Refused(NotFound))
    else if Sum(w.members, OwnedBy(user, w.tenants)) >= accountLimit then (w, Refused(WorkspaceLimitReached))
    else if slugTaken then (w, Refused(SlugAlreadyTaken))
    else
      (w.(tenants := w.tenants + [Tenant(true, false, seatLimit)],
          members := w.members + [Membership(user, |w.tenants|, Owner, Active)]), Done)
  }

  function CancelIn(t: nat): Invitation -> Invitation {
    (i: Invitation) => if i.tenant == t && i.status.Pending? then i.(status := Cancelled) else i
  }
  function LeaveAs(u: nat, t: nat): Membership -> Membership {
    (m: Membership) => if m.user == u && m.tenant == t then m.(status := Left) else m
  }

  predicate OthersActive(members: seq<Membership>, u: nat, t: nat) {
    exists j :: 0 <= j < |members| && members[j].tenant == t && members[j].status.Active? && members[j].user != u
  }

  function Close(w: World, actor: nat, t: nat): (World, Reply) {
    if t >= |w.tenants| then (w, Refused(NotFound))
    else if OthersActive(w.members, actor, t) then (w, Refused(WorkspaceNotEmpty))
    else
      (w.(invites := UpdateAll(w.invites, CancelIn(t)), members := UpdateAll(w.members, LeaveAs(actor, t)),
          tenants := w.tenants[t := w.tenants[t].(closed := true)]), Done)
  }

  // ---------- memberships ----------

  function Leave(w: World, user: nat, t: nat): (World, Reply) {
    match Find(w.members, ActiveRowOf(user, t))
    case None => (w, Refused(NotFound))
    case Some(k) =>
      if w.members[k].role.Owner? && !OtherOwner(w.members, t, k) then (w, Refused(LastOwnerCannotLeave))
      else (w.(members := w.members[k := w.members[k].(status := Left)]), Done)
  }

  function Remove(w: World, k: nat): (World, Reply) {
    if k >= |w.members| then (w, Refused(NotFound))
    else if !w.members[k].role.Member? then (w, Refused(MembershipNotRemovable))
    else if !w.members[k].status.Active? then (w, Done)
    else (w.(members := w.members[k := w.members[k].(status := Removed)]), Done)
  }

  function Transfer(w: World, actor: nat, k: nat, accountLimit: nat): (World, Reply) {
    if k >= |w.members| then (w, Refused(NotFound))
    else
      var target := w.members[k];
      if !target.role.Member? || !target.status.Active?
          || target.user == actor then (w, Refused(InvalidOwnershipTransfer))
      else if Sum(w.members, OwnedBy(target.user, w.tenants)) >= accountLimit then (w, Refused(WorkspaceLimitReached))
      else
        match Find(w.members, ActiveRowOf(actor, target.tenant))
        case None => (w, Refused(NotFound))
        case Some(c) =>
          (w.(members := w.members[k := target.(role := Owner)][c := w.members[c].(role := Member)]), Done)
  }

  // ---------- invitations ----------

  function Invite(w: World, t: nat, user: nat, now: int): (World, Reply) {
    if user >= |w.users| || !w.users[user].active then (w, Refused(UserNotFound))
    else if t >= |w.tenants| then (w, Refused(NotFound))
    else if Find(w.members, ActiveRowOf(user, t)).Some? then (w, Refused(AlreadyAMember))
    else if !Available(w.tenants[t]) then (w, Refused(WorkspaceUnavailable))
    else
      var current := Expire(w, OfTenant(t), now);
      if Find(current.invites, PendingFor(user, t)).Some? then (w, Refused(InvitationAlreadyPending))
      else if SeatsUsed(current, t, now) >= w.tenants[t].limit then (w, Refused(MemberLimitReached))
      else (current.(invites := current.invites + [Invitation(t, user, Pending, now + INVITATION_EXPIRY)]), Done)
  }

  function CancelInvitation(w: World, i: nat): (World, Reply) {
    if i >= |w.invites| then (w, Refused(InvitationNotFound))
    else if !w.invites[i].status.Pending? then (w, Refused(InvitationNotPending))
    else (w.(invites := w.invites[i := w.invites[i].(status := Cancelled)]), Done)
  }

  /** The decision transaction of `respond`; expiry has been written before it. */
  function Decide(w: World, user: nat, i: nat, accept: bool, now: int): (World, Reply) {
    if i >= |w.invites| || w.invites[i].user != user
        || w.invites[i].tenant >= |w.tenants| then (w, Refused(InvitationNotFound))
    else
      var invitation := w.invites[i];
      if invitation.status == (if accept then Accepted else Declined) then (w, Done)
      else if !invitation.status.Pending? || invitation.expires <= now then (w, Refused(InvitationNotPending))
      else if !accept then (w.(invites := w.invites[i := invitation.(status := Declined)]), Done)
      else if !Available(w.tenants[invitation.tenant]) then (w, Refused(WorkspaceUnavailable))
      else if Sum(w.members, ActiveMember(invitation.tenant)) >= w.tenants[invitation.tenant].limit
          then (w, Refused(MemberLimitReached))
      else
        (w.(members := Joined(w.members, user, invitation.tenant),
            invites := w.invites[i := invitation.(status := Accepted)]), Done)
  }

  /** A returning resident's row is reactivated; an owner's row keeps its role. */
  function Joined(members: seq<Membership>, user: nat, t: nat): seq<Membership> {
    match Find(members, RowOf(user, t))
    case None => members + [Membership(user, t, Member, Active)]
    case Some(k) =>
      members[k := members[k].(status := Active, role := if members[k].role.Owner? then Owner else Member)]
  }

  // ---------- platform ----------

  function SetRole(w: World, k: nat, role: Role): (World, Reply) {
    if k >= |w.members| then (w, Refused(NotFound))
    else
      var m := w.members[k];
      if !m.status.Active? then (w, Refused(NotActive))
      else if m.role == role then (w, Done)
      else if m.role.Owner? && !OtherOwner(w.members, m.tenant, k) then (w, Refused(LastWorkspaceOwnerProtected))
      else (w.(members := w.members[k := m.(role := role)]), Done)
  }

  /** A validated subset of the three platform flags. */
  datatype Flags = Flags(staff: Option<bool>, superuser: Option<bool>, active: Option<bool>)

  function WithFlags(u: User, f: Flags): User {
    u.(staff := f.staff.GetOr(u.staff), superuser := f.superuser.GetOr(u.superuser), active := f.active.GetOr(u.active))
  }

  function UpdateRoles(w: World, u: nat, f: Flags): (World, Reply) {
    if u >= |w.users| then (w, Refused(NotFound))
    else
      var resulting := WithFlags(w.users[u], f);
      if resulting == w.users[u] then (w, Done)
      else if !OtherRoot(w.users, u) && !IsRoot(resulting) then (w, Refused(LastRootProtected))
      else (w.(users := w.users[u := resulting]), Done)
  }

  function EndAll(u: nat): Membership -> Membership {
    (m: Membership) => if m.user == u && m.status.Active? then m.(status := Left) else m
  }
  function CancelFor(u: nat): Invitation -> Invitation {
    (i: Invitation) => if i.user == u && i.status.Pending? then i.(status := Cancelled) else i
  }

  predicate OwnsAny(members: seq<Membership>, u: nat) {
    exists j :: 0 <= j < |members| && members[j].user == u && members[j].role.Owner? && members[j].status.Active?
  }

  function DeleteAccount(w: World, u: nat): (World, Reply) {
    if u >= |w.users| then (w, Refused(NotFound))
    else if w.users[u].deleted then (w, Done)
    else if OwnsAny(w.members, u) then (w, Refused(OwnsWorkspaces))
    else if IsRoot(w.users[u]) && !OtherRoot(w.users, u) then (w, Refused(LastRootAccount))
    else
      (w.(members := UpdateAll(w.members, EndAll(u)), invites := UpdateAll(w.invites, CancelFor(u)),
          users := w.users[u := User(false, false, false, true)]), Done)
  }

  function SetActive(w: World, t: nat, active: bool): World {
    if t < |w.tenants| then w.(tenants := w.tenants[t := w.tenants[t].(active := active)]) else w
  }

  /** The plan behind the workspace changes. */
  function SetLimit(w: World, t: nat, limit: nat): World {
    if t < |w.tenants| then w.(tenants := w.tenants[t := w.tenants[t].(limit := limit)]) else w
  }

  // ---------- runs ----------

  datatype Op =
    | SignUpOp
    | CreateTenantOp(user: nat, accountLimit: nat, slugTaken: bool, seatLimit: nat)
    | CloseOp(actor: nat, tenant: nat)
    | LeaveOp(user: nat, tenant: nat)
    | RemoveOp(member: nat)
    | TransferOp(actor: nat, member: nat, accountLimit: nat)
    | InviteOp(tenant: nat, user: nat)
    | CancelOp(invitation: nat)
    | ExpireOp(scope: Scope)
    | ExpireOneOp(invitation: nat, user: nat)
    | DecideOp(user: nat, invitation: nat, accept: bool)
    | SetRoleOp(member: nat, role: Role)
    | UpdateRolesOp(user: nat, flags: Flags)
    | DeleteAccountOp(user: nat)
    | SetActiveOp(tenant: nat, active: bool)
    | SetLimitOp(tenant: nat, limit: nat)

  function Step(w: World, op: Op, now: int): World {
    match op
    case SignUpOp => w.(users := w.users + [User(false, false, true, false)])
    case CreateTenantOp(user, accountLimit, slugTaken, seatLimit) =>
      CreateTenant(w, user, accountLimit, slugTaken, seatLimit).0
    case CloseOp(actor, t) => Close(w, actor, t).0
    case LeaveOp(user, t) => Leave(w, user, t).0
    case RemoveOp(k) => Remove(w, k).0
    case TransferOp(actor, k, accountLimit) => Transfer(w, actor, k, accountLimit).0
    case InviteOp(t, user) => Invite(w, t, user, now).0
    case CancelOp(i) => CancelInvitation(w, i).0
    case ExpireOp(scope) => Expire(w, scope, now)
    case ExpireOneOp(i, user) => ExpireOne(w, i, user, now)
    case DecideOp(user, i, accept) => Decide(w, user, i, accept, now).0
    case SetRoleOp(k, role) => SetRole(w, k, role).0
    case UpdateRolesOp(u, f) => UpdateRoles(w, u, f).0
    case DeleteAccountOp(u) => DeleteAccount(w, u).0
    case SetActiveOp(t, active) => SetActive(w, t, active)
    case SetLimitOp(t, limit) => SetLimit(w, t, limit)
  }

  /** Each operation with the clock reading it runs at. */
  function Run(w: World, ops: seq<(Op, int)>): World {
    if ops == [] then w else Step(Run(w, ops[..|ops| - 1]), ops[|ops| - 1].0, ops[|ops| - 1].1)
  }
}
