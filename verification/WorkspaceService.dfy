/** The workspace, membership, invitation, role and account services as they run: locked rows are updated
    in place, each method is one transaction (respond is two). */
module WorkspaceService {
  import opened Tables
  import opened Workspaces
  import opened WorkspaceSafety
  import opened Seats
  import opened WorkspaceEffects

  /** Closing leaves nobody active. */
  lemma NobodyLeft(w: World, actor: nat, t: nat)
    requires Valid(w)
    ensures var (w', reply) := Close(w, actor, t);
            reply.Done? ==> t < |w'.tenants| && w'.tenants[t].closed
                            && forall k :: 0 <= k < |w'.members| && w'.members[k].tenant == t ==>
                                 !w'.members[k].status.Active?
  {
    hide Valid; hide UpdateAll;
    CloseKeeps(w, actor, t);
    EmptyOfClosed(Close(w, actor, t).0);
  }

  lemma EmptyOfClosed(w: World)
    requires Valid(w)
    ensures ClosedEmpty(w)
  {
  }

  class Platform {
    var users: seq<User>
    var tenants: seq<Tenant>
    var members: seq<Membership>
    var invites: seq<Invitation>

    function Rows(): World
      reads this
    {
      World(users, tenants, members, invites)
    }

    constructor (root: User)
      requires IsRoot(root)
      ensures Rows() == World([root], [], [], []) && Valid(Rows()) && RootAlive(users)
    {
      users, tenants, members, invites := [root], [], [], [];
      new;
      assert IsRoot(users[0]);
    }

    // ---------- TenantService ----------

    method CreateWorkspace(user: nat, accountLimit: nat, slugTaken: bool, seatLimit: nat) returns (reply: Reply)
      requires Valid(Rows())
      modifies this`tenants, this`members
      ensures Valid(Rows()) && (Rows(), reply) == CreateTenant(old(Rows()), user, accountLimit, slugTaken, seatLimit)
      ensures CreatedAs(old(Rows()), user, accountLimit, slugTaken, seatLimit, Rows(), reply)
      ensures reply.Done? ==> Sum(members, OwnedBy(user, tenants)) <= accountLimit
    {
      hide Valid; hide Sum; hide CreatedAs;
      CreateKeeps(Rows(), user, accountLimit, slugTaken, seatLimit);
      CreateUsesSlot(Rows(), user, accountLimit, slugTaken, seatLimit);
      CreateExactly(Rows(), user, accountLimit, slugTaken, seatLimit);
      if user >= |users| { return Refused(NotFound); }
      var used := Sum(members, OwnedBy(user, tenants));
      if used >= accountLimit { return Refused(WorkspaceLimitReached); }
      if slugTaken { return Refused(SlugAlreadyTaken); }
      var tenant := |tenants|;
      tenants := tenants + [Tenant(true, false, seatLimit)];
      members := members + [Membership(user, tenant, Owner, Active)];
      reply := Done;
    }

    method CloseWorkspace(actor: nat, t: nat) returns (reply: Reply)
      requires Valid(Rows())
      modifies this`tenants, this`members, this`invites
      ensures Valid(Rows()) && (Rows(), reply) == Close(old(Rows()), actor, t)
      ensures ClosedAs(old(Rows()), actor, t, Rows(), reply)
      ensures reply.Done? ==> forall k :: 0 <= k < |members| && members[k].tenant == t ==> !members[k].status.Active?
    {
      hide Valid; hide UpdateAll; hide OthersActive; hide ClosedAs;
      CloseKeeps(Rows(), actor, t);
      CloseExactly(Rows(), actor, t);
      NobodyLeft(Rows(), actor, t);
      if t >= |tenants| { return Refused(NotFound); }
      if OthersActive(members, actor, t) { return Refused(WorkspaceNotEmpty); }
      invites := UpdateAll(invites, CancelIn(t));
      members := UpdateAll(members, LeaveAs(actor, t));
      tenants := tenants[t := tenants[t].(closed := true)];
      reply := Done;
    }

    // ---------- MembershipService ----------

    /** `_end` */
    method End(k: nat, status: MembershipStatus)
      requires k < |members|
      modifies this`members
      ensures members == old(members)[k := old(members)[k].(status := status)]
    {
      var membership := members[k];
      membership := membership.(status := status);
      members := members[k := membership];
    }

    method LeaveWorkspace(user: nat, t: nat) returns (reply: Reply)
      requires Valid(Rows())
      modifies this`members
      ensures Valid(Rows()) && (Rows(), reply) == Leave(old(Rows()), user, t)
      ensures LeftAs(old(Rows()), user, t, Rows(), reply)
    {
      hide Valid; hide Find; hide OtherOwner; hide LeftAs;
      LeaveKeeps(Rows(), user, t);
      LeaveExactly(Rows(), user, t);
      var row := Find(members, ActiveRowOf(user, t));
      if row.None? { return Refused(NotFound); }
      if members[row.value].role.Owner? {
        if !OtherOwner(members, t, row.value) { return Refused(LastOwnerCannotLeave); }
      }
      End(row.value, Left);
      reply := Done;
    }

    method RemoveMember(k: nat) returns (reply: Reply)
      requires Valid(Rows())
      modifies this`members
      ensures Valid(Rows()) && (Rows(), reply) == Remove(old(Rows()), k)
      ensures RemovedAs(old(Rows()), k, Rows(), reply)
    {
      hide Valid;
      RemoveKeeps(Rows(), k);
      if k >= |members| { return Refused(NotFound); }
      if !members[k].role.Member? { return Refused(MembershipNotRemovable); }
      if !members[k].status.Active? { return Done; }
      End(k, Removed);
      reply := Done;
    }

    method TransferOwnership(actor: nat, k: nat, accountLimit: nat) returns (reply: Reply)
      requires Valid(Rows())
      modifies this`members
      ensures Valid(Rows()) && (Rows(), reply) == Transfer(old(Rows()), actor, k, accountLimit)
      ensures TransferredAs(old(Rows()), actor, k, accountLimit, Rows(), reply)
      ensures k < |old(members)| && reply.Done? ==> Sum(members, OwnedBy(old(members)[k].user, tenants)) <= accountLimit
    {
      hide Valid; hide Sum; hide Find; hide TransferredAs;
      TransferKeeps(Rows(), actor, k, accountLimit);
      TransferExactly(Rows(), actor, k, accountLimit);
      if k < |members| { TransferUsesSlot(Rows(), actor, k, accountLimit); }
      if k >= |members| { return Refused(NotFound); }
      var target := members[k];
      if !target.role.Member? || !target.status.Active? || target.user == actor {
        return Refused(InvalidOwnershipTransfer);
      }
      var used := Sum(members, OwnedBy(target.user, tenants));
      if used >= accountLimit { return Refused(WorkspaceLimitReached); }
      var current := Find(members, ActiveRowOf(actor, target.tenant));
      if current.None? { return Refused(NotFound); }
      var row := members[current.value];
      target := target.(role := Owner);
      members := members[k := target];
      row := row.(role := Member);
      members := members[current.value := row];
      reply := Done;
    }

    // ---------- InvitationService ----------

    method InviteUser(t: nat, user: nat, now: int) returns (reply: Reply)
      requires Valid(Rows())
      modifies this`invites
      ensures Valid(Rows()) && (Rows(), reply) == Invite(old(Rows()), t, user, now)
      ensures InvitedAs(old(Rows()), t, user, now, Rows(), reply)
      ensures t < |tenants| ==> SeatsUsed(Rows(), t, now) <= Max(SeatsUsed(old(Rows()), t, now), tenants[t].limit)
    {
      hide Valid; hide Find; hide Sum; hide UpdateAll; hide InvitedAs;
      InviteKeeps(Rows(), t, user, now);
      InviteExactly(Rows(), t, user, now);
      if t < |tenants| { InviteSeats(Rows(), t, user, t, now); }
      if user >= |users| || !users[user].active { return Refused(UserNotFound); }
      if t >= |tenants| { return Refused(NotFound); }
      if Find(members, ActiveRowOf(user, t)).Some? { return Refused(AlreadyAMember); }
      if !Available(tenants[t]) { return Refused(WorkspaceUnavailable); }
      var savepoint := invites;
      invites := UpdateAll(invites, ExpireIn(OfTenant(t), now));
      if Find(invites, PendingFor(user, t)).Some? {
        invites := savepoint;
        return Refused(InvitationAlreadyPending);
      }
      var used := Sum(members, ActiveMember(t)) + Sum(invites, Reserved(t, now));
      if used >= tenants[t].limit {
        invites := savepoint;
        return Refused(MemberLimitReached);
      }
      invites := invites + [Invitation(t, user, Pending, now + INVITATION_EXPIRY)];
      reply := Done;
    }

    method WithdrawInvitation(i: nat) returns (reply: Reply)
      requires Valid(Rows())
      modifies this`invites
      ensures Valid(Rows()) && (Rows(), reply) == CancelInvitation(old(Rows()), i)
      ensures WithdrawnAs(old(Rows()), i, Rows(), reply)
    {
      if i < |invites| && invites[i].status.Pending? { SettleOneKeeps(Rows(), i, Cancelled); }
      hide Valid;
      if i >= |invites| { return Refused(InvitationNotFound); }
      if !invites[i].status.Pending? { return Refused(InvitationNotPending); }
      invites := invites[i := invites[i].(status := Cancelled)];
      reply := Done;
    }

    /** The invited person's answer: expiry is committed first, then the decision. */
    method Respond(user: nat, i: nat, accept: bool, now: int) returns (reply: Reply)
      requires Valid(Rows())
      modifies this`members, this`invites
      ensures Valid(Rows())
      ensures (Rows(), reply) == Decide(ExpireOne(old(Rows()), i, user, now), user, i, accept, now)
      ensures RespondedAs(old(Rows()), user, i, accept, now, Rows(), reply)
    {
      hide Valid; hide Decide; hide RespondedAs;
      RespondExactly(Rows(), user, i, accept, now);
      if i < |invites| && invites[i].status.Pending? { SettleOneKeeps(Rows(), i, Expired); }
      if i < |invites| && invites[i].user == user && invites[i].status.Pending? && invites[i].expires <= now {
        invites := invites[i := invites[i].(status := Expired)];
      }
      reply := DecideInvitation(user, i, accept, now);
    }

    /** The decision transaction. */
    method DecideInvitation(user: nat, i: nat, accept: bool, now: int) returns (reply: Reply)
      requires Valid(Rows())
      modifies this`members, this`invites
      ensures Valid(Rows()) && (Rows(), reply) == Decide(old(Rows()), user, i, accept, now)
    {
      hide Valid; hide Sum; hide Joined;
      DecideKeeps(Rows(), user, i, accept, now);
      if i < |invites| { TenantOfInvitation(Rows(), i); }
      if i >= |invites| || invites[i].user != user { return Refused(InvitationNotFound); }
      var invitation := invites[i];
      var target := if accept then Accepted else Declined;
      if invitation.status == target { return Done; }
      if invitation.status.Pending? && invitation.expires <= now { return Refused(InvitationNotPending); }
      if !invitation.status.Pending? { return Refused(InvitationNotPending); }
      if !accept {
        invites := invites[i := invitation.(status := Declined)];
        return Done;
      }
      var tenant := tenants[invitation.tenant];
      if !Available(tenant) { return Refused(WorkspaceUnavailable); }
      var used := Sum(members, ActiveMember(invitation.tenant));
      if used >= tenant.limit { return Refused(MemberLimitReached); }
      Join(user, invitation.tenant);
      invites := invites[i := invitation.(status := Accepted)];
      reply := Done;
    }

    /** A new row, or the old one reactivated. */
    method Join(user: nat, t: nat)
      modifies this`members
      ensures members == Joined(old(members), user, t)
    {
      hide Find;
      var existing := Find(members, RowOf(user, t));
      if existing.None? {
        members := members + [Membership(user, t, Member, Active)];
      } else {
        var membership := members[existing.value];
        membership := membership.(status := Active);
        if !membership.role.Owner? { membership := membership.(role := Member); }
        members := members[existing.value := membership];
      }
    }

    // ---------- platform roles and accounts ----------

    method SetMembershipRole(k: nat, role: Role) returns (reply: Reply)
      requires Valid(Rows())
      modifies this`members
      ensures Valid(Rows()) && (Rows(), reply) == SetRole(old(Rows()), k, role)
      ensures RoleSetAs(old(Rows()), k, role, Rows(), reply)
    {
      hide Valid; hide OtherOwner; hide RoleSetAs;
      SetRoleKeeps(Rows(), k, role);
      SetRoleExactly(Rows(), k, role);
      if k >= |members| { return Refused(NotFound); }
      var membership := members[k];
      if !membership.status.Active? { return Refused(NotActive); }
      if membership.role == role { return Done; }
      if membership.role.Owner? && !role.Owner? {
        if !OtherOwner(members, membership.tenant, k) { return Refused(LastWorkspaceOwnerProtected); }
      }
      membership := membership.(role := role);
      members := members[k := membership];
      reply := Done;
    }

    method UpdateUserRoles(u: nat, f: Flags) returns (reply: Reply)
      requires Valid(Rows()) && RootAlive(users)
      modifies this`users
      ensures Valid(Rows()) && RootAlive(users)
      ensures (Rows(), reply) == UpdateRoles(old(Rows()), u, f)
      ensures RolesUpdatedAs(old(Rows()), u, f, Rows(), reply)
    {
      hide Valid; hide RootAlive; hide OtherRoot; hide RolesUpdatedAs;
      RootSurvives(Rows(), UpdateRolesOp(u, f), 0);
      UpdateRolesExactly(Rows(), u, f);
      UsersFree(Rows(), UpdateRoles(Rows(), u, f).0.users);
      if u >= |users| { return Refused(NotFound); }
      var user := users[u];
      if f.staff.Some? { user := user.(staff := f.staff.value); }
      if f.superuser.Some? { user := user.(superuser := f.superuser.value); }
      if f.active.Some? { user := user.(active := f.active.value); }
      if user == users[u] { return Done; }
      var wouldBeRoot := user.staff && user.superuser && user.active;
      if !OtherRoot(users, u) && !wouldBeRoot { return Refused(LastRootProtected); }
      users := users[u := user];
      reply := Done;
    }

    method DeleteUser(u: nat) returns (reply: Reply)
      requires Valid(Rows()) && RootAlive(users)
      modifies this`users, this`members, this`invites
      ensures Valid(Rows()) && RootAlive(users)
      ensures (Rows(), reply) == DeleteAccount(old(Rows()), u)
      ensures DeletedAs(old(Rows()), u, Rows(), reply)
    {
      hide Valid; hide RootAlive; hide OtherRoot; hide OwnsAny; hide UpdateAll; hide DeletedAs;
      RootSurvives(Rows(), DeleteAccountOp(u), 0);
      DeleteExactly(Rows(), u);
      DeleteKeeps(Rows(), u);
      if u >= |users| { return Refused(NotFound); }
      if users[u].deleted { return Done; }
      if OwnsAny(members, u) { return Refused(OwnsWorkspaces); }
      if IsRoot(users[u]) && !OtherRoot(users, u) { return Refused(LastRootAccount); }
      members := UpdateAll(members, EndAll(u));
      invites := UpdateAll(invites, CancelFor(u));
      var user := users[u];
      user := user.(active := false);
      user := user.(staff := false);
      user := user.(superuser := false);
      user := user.(deleted := true);
      users := users[u := user];
      reply := Done;
    }
  }
}
