/** What every workspace operation answers and leaves, row by row: counts are numbers of rows, durations are seconds,
    and whatever is not named stays as it was. */
module WorkspaceEffects {
  import opened Tables
  import opened Workspaces
  import opened WorkspaceSafety

  // ---------- who and how many ----------

  ghost predicate ActiveAt(members: seq<Membership>, k: int, user: nat, t: nat) {
    0 <= k < |members| && members[k].user == user && members[k].tenant == t && members[k].status.Active?
  }

  ghost predicate OwnerAt(members: seq<Membership>, k: int, t: nat) {
    0 <= k < |members| && members[k].tenant == t && members[k].role.Owner? && members[k].status.Active?
  }

  /** The workspaces a user owns that are not closed. */
  ghost function Ownerships(w: World, user: nat): set<int> {
    set k | 0 <= k < |w.members| && w.members[k].user == user && OwnerAt(w.members, k, w.members[k].tenant)
            && w.members[k].tenant < |w.tenants| && !w.tenants[w.members[k].tenant].closed
  }
  ghost function OpenOwnerships(w: World, user: nat): nat { |Ownerships(w, user)| }

  /** The active residents of a workspace; owners take no seat. */
  ghost function ResidentRows(members: seq<Membership>, t: nat): set<int> {
    set k | 0 <= k < |members| && members[k].tenant == t && members[k].role.Member? && members[k].status.Active?
  }
  ghost function Residents(members: seq<Membership>, t: nat): nat { |ResidentRows(members, t)| }

  /** The invitations of a workspace that still wait for an answer in time. */
  ghost function AwaitedRows(invites: seq<Invitation>, t: nat, now: int): set<int> {
    set i | 0 <= i < |invites| && invites[i].tenant == t && invites[i].status.Pending? && invites[i].expires > now
  }
  ghost function Awaited(invites: seq<Invitation>, t: nat, now: int): nat { |AwaitedRows(invites, t, now)| }

  lemma OwnershipsCounted(w: World, user: nat)
    ensures Sum(w.members, OwnedBy(user, w.tenants)) == OpenOwnerships(w, user)
  {
    SumCounts(w.members, OwnedBy(user, w.tenants), Ownerships(w, user));
  }

  lemma ResidentsCounted(members: seq<Membership>, t: nat)
    ensures Sum(members, ActiveMember(t)) == Residents(members, t)
  {
    SumCounts(members, ActiveMember(t), ResidentRows(members, t));
  }

  lemma AwaitedCounted(invites: seq<Invitation>, t: nat, now: int)
    ensures Sum(invites, Reserved(t, now)) == Awaited(invites, t, now)
  {
    SumCounts(invites, Reserved(t, now), AwaitedRows(invites, t, now));
  }

  /** The seats of a workspace: residents, and invitations that wait in time. */
  lemma SeatsCounted(w: World, t: nat, now: int)
    ensures SeatsUsed(w, t, now) == Residents(w.members, t) + Awaited(w.invites, t, now)
  {
    hide Sum; hide Residents; hide Awaited;
    ResidentsCounted(w.members, t);
    AwaitedCounted(w.invites, t, now);
  }

  ghost predicate Unmoved(w: World, w': World, reply: Reply, code: Refusal) { w' == w && reply == Refused(code) }

  // ---------- workspaces ----------

  /** A new workspace is open under the given member limit and has its founder as owner. */
  ghost predicate CreatedAs(w: World, user: nat, accountLimit: nat, slugTaken: bool, seatLimit: nat,
                            w': World, reply: Reply) {
    if user >= |w.users| then Unmoved(w, w', reply, NotFound)
    else if OpenOwnerships(w, user) >= accountLimit then Unmoved(w, w', reply, WorkspaceLimitReached)
    else if slugTaken then Unmoved(w, w', reply, SlugAlreadyTaken)
    else
      && reply == Done
      && w' == w.(tenants := w.tenants + [Tenant(true, false, seatLimit)],
                  members := w.members + [Membership(user, |w.tenants|, Owner, Active)])
  }

  lemma CreateExactly(w: World, user: nat, accountLimit: nat, slugTaken: bool, seatLimit: nat)
    ensures var r := CreateTenant(w, user, accountLimit, slugTaken, seatLimit);
            CreatedAs(w, user, accountLimit, slugTaken, seatLimit, r.0, r.1)
  {
    hide Sum; hide OpenOwnerships;
    OwnershipsCounted(w, user);
  }

  /** Closing ends the actor's own membership and the pending invitations of that workspace, and marks it closed;
      it is refused while somebody else is active there. */
  ghost predicate ClosedAs(w: World, actor: nat, t: nat, w': World, reply: Reply) {
    if t >= |w.tenants| then Unmoved(w, w', reply, NotFound)
    else if exists k :: 0 <= k < |w.members| && w.members[k].user != actor && w.members[k].tenant == t
                        && w.members[k].status.Active? then Unmoved(w, w', reply, WorkspaceNotEmpty)
    else
      && reply == Done && w'.users == w.users
      && w'.tenants == w.tenants[t := w.tenants[t].(closed := true)]
      && |w'.members| == |w.members| && |w'.invites| == |w.invites|
      && (forall k :: 0 <= k < |w.members| ==>
            var m := w.members[k];
            w'.members[k] == if m.user == actor && m.tenant == t then m.(status := Left) else m)
      && (forall i :: 0 <= i < |w.invites| ==>
            var v := w.invites[i];
            w'.invites[i] == if v.tenant == t && v.status.Pending? then v.(status := Cancelled) else v)
  }

  lemma CloseExactly(w: World, actor: nat, t: nat)
    ensures ClosedAs(w, actor, t, Close(w, actor, t).0, Close(w, actor, t).1)
  {
  }

  // ---------- memberships ----------

  /** Leaving ends one membership; the only active owner of a workspace stays. */
  ghost predicate LeftAs(w: World, user: nat, t: nat, w': World, reply: Reply) {
    && ((forall k :: !ActiveAt(w.members, k, user, t)) ==> Unmoved(w, w', reply, NotFound))
    && (forall k :: ActiveAt(w.members, k, user, t) ==>
          if w.members[k].role.Owner? && (forall j :: OwnerAt(w.members, j, t) ==> j == k) then
            Unmoved(w, w', reply, LastOwnerCannotLeave)
          else
            && reply == Done
            && w' == w.(members := w.members[k := w.members[k].(status := Left)]))
  }

  lemma LeaveExactly(w: World, user: nat, t: nat)
    requires Valid(w)
    ensures LeftAs(w, user, t, Leave(w, user, t).0, Leave(w, user, t).1)
  {
    hide Find; hide Valid; hide OtherOwner;
    ActiveIsFound(w, user, t);
    var row := Find(w.members, ActiveRowOf(user, t));
    if row.Some? { OnlyOwner(w.members, t, row.value); }
  }

  /** The query finds the active membership, of which there is at most one. */
  lemma ActiveIsFound(w: World, user: nat, t: nat)
    requires Valid(w)
    ensures forall k :: ActiveAt(w.members, k, user, t) <==> Find(w.members, ActiveRowOf(user, t)) == Some(k)
  {
    hide Find; hide Owned; hide ClosedEmpty; hide OnePending; hide Exclusive; hide RefsOk;
    NoneActive(w.members, user, t);
  }

  lemma OnlyOwner(members: seq<Membership>, t: nat, k: nat)
    ensures !OtherOwner(members, t, k) <==> forall j :: OwnerAt(members, j, t) ==> j == k
  {
    if !OtherOwner(members, t, k) {
      forall j | OwnerAt(members, j, t) ensures j == k { assert OwnsTenant(members[j], t); }
    } else {
      var j :| 0 <= j < |members| && j != k && OwnsTenant(members[j], t);
      assert OwnerAt(members, j, t);
    }
  }

  /** Only residents are removed; removing one who is gone already changes nothing. */
  ghost predicate RemovedAs(w: World, k: nat, w': World, reply: Reply) {
    if k >= |w.members| then Unmoved(w, w', reply, NotFound)
    else if w.members[k].role.Owner? then Unmoved(w, w', reply, MembershipNotRemovable)
    else
      && reply == Done
      && w' == if w.members[k].status.Active? then w.(members := w.members[k := w.members[k].(status := Removed)])
               else w
  }

  lemma RemoveExactly(w: World, k: nat)
    ensures RemovedAs(w, k, Remove(w, k).0, Remove(w, k).1)
  {
  }

  /** A transfer makes an active resident owner and the actor resident, and nothing else; the new owner needs a free
      workspace slot. */
  ghost predicate TransferredAs(w: World, actor: nat, k: nat, accountLimit: nat, w': World, reply: Reply) {
    if k >= |w.members| then Unmoved(w, w', reply, NotFound)
    else
      var m := w.members[k];
      if m.role.Owner? || !m.status.Active? || m.user == actor then Unmoved(w, w', reply, InvalidOwnershipTransfer)
      else if OpenOwnerships(w, m.user) >= accountLimit then Unmoved(w, w', reply, WorkspaceLimitReached)
      else
        && ((forall c :: !ActiveAt(w.members, c, actor, m.tenant)) ==> Unmoved(w, w', reply, NotFound))
        && (forall c :: ActiveAt(w.members, c, actor, m.tenant) ==>
              && reply == Done && |w'.members| == |w.members| && w' == w.(members := w'.members)
              && w'.members[k] == m.(role := Owner) && w'.members[c] == w.members[c].(role := Member)
              && forall j :: 0 <= j < |w.members| && j != k && j != c ==> w'.members[j] == w.members[j])
  }

  lemma TransferExactly(w: World, actor: nat, k: nat, accountLimit: nat)
    requires Valid(w)
    ensures TransferredAs(w, actor, k, accountLimit, Transfer(w, actor, k, accountLimit).0,
                          Transfer(w, actor, k, accountLimit).1)
  {
    hide Find; hide Valid; hide Sum; hide OpenOwnerships;
    if k < |w.members| {
      OwnershipsCounted(w, w.members[k].user);
      ActiveIsFound(w, actor, w.members[k].tenant);
    }
  }

  // ---------- invitations ----------

  /** Whoever did not answer in time. */
  predicate Lapsed(v: Invitation, now: int) { v.status.Pending? && v.expires <= now }

  /** An invitation goes to an active user who is neither in the workspace nor waiting to answer, while the workspace
      is available and has a seat left beside residents and waiting invitations; it reserves a seat for 14 days, and
      the lapsed invitations of the workspace are marked on the way. */
  ghost predicate InvitedAs(w: World, t: nat, user: nat, now: int, w': World, reply: Reply) {
    if user >= |w.users| || !w.users[user].active then Unmoved(w, w', reply, UserNotFound)
    else if t >= |w.tenants| then Unmoved(w, w', reply, NotFound)
    else if exists k :: ActiveAt(w.members, k, user, t) then Unmoved(w, w', reply, AlreadyAMember)
    else if !w.tenants[t].active || w.tenants[t].closed then Unmoved(w, w', reply, WorkspaceUnavailable)
    else if exists i :: Waiting(w.invites, i, user, t, now) then Unmoved(w, w', reply, InvitationAlreadyPending)
    else if Residents(w.members, t) + Awaited(w.invites, t, now) >= w.tenants[t].limit then
      Unmoved(w, w', reply, MemberLimitReached)
    else
      var n := |w.invites|;
      && reply == Done && w' == w.(invites := w'.invites) && |w'.invites| == n + 1
      && w'.invites[n] == Invitation(t, user, Pending, now + 1209600)
      && forall i :: 0 <= i < n ==>
           var v := w.invites[i];
           w'.invites[i] == if v.tenant == t && Lapsed(v, now) then v.(status := Expired) else v
  }

  ghost predicate Waiting(invites: seq<Invitation>, i: int, user: nat, t: nat, now: int) {
    && 0 <= i < |invites| && invites[i].user == user && invites[i].tenant == t
    && invites[i].status.Pending? && invites[i].expires > now
  }

  lemma InviteExactly(w: World, t: nat, user: nat, now: int)
    ensures InvitedAs(w, t, user, now, Invite(w, t, user, now).0, Invite(w, t, user, now).1)
  {
    hide Find; hide Sum; hide Expire; hide SeatsUsed; hide Residents; hide Awaited; hide Waiting;
    var current := Expire(w, OfTenant(t), now);
    ExpireExactly(w, OfTenant(t), now);
    ActiveIsListed(w.members, user, t);
    WaitingIsListed(w, t, user, now);
    SeatsCounted(w, t, now);
    SeatsAfterExpiry(w, t, now);
  }

  lemma ActiveIsListed(members: seq<Membership>, user: nat, t: nat)
    ensures Find(members, ActiveRowOf(user, t)).Some? <==> exists k :: ActiveAt(members, k, user, t)
  {
    hide Find;
    NoneActive(members, user, t);
    var r := Find(members, ActiveRowOf(user, t));
    if r.Some? { assert ActiveAt(members, r.value, user, t); }
  }

  /** Marking lapsed invitations leaves the ones that wait in time. */
  lemma WaitingIsListed(w: World, t: nat, user: nat, now: int)
    ensures Find(Expire(w, OfTenant(t), now).invites, PendingFor(user, t)).Some?
            <==> exists i :: Waiting(w.invites, i, user, t, now)
  {
    hide Find; hide Expire;
    ExpireExactly(w, OfTenant(t), now);
    var invites := Expire(w, OfTenant(t), now).invites;
    NonePending(invites, user, t);
    assert forall i :: 0 <= i < |invites| ==>
        (Waiting(w.invites, i, user, t, now)
         <==> invites[i].user == user && invites[i].tenant == t && invites[i].status.Pending?);
  }

  lemma SeatsAfterExpiry(w: World, t: nat, now: int)
    ensures SeatsUsed(Expire(w, OfTenant(t), now), t, now) == SeatsUsed(w, t, now)
  {
    hide Sum; hide Expire;
    ExpireExactly(w, OfTenant(t), now);
    SumSame(Expire(w, OfTenant(t), now).invites, w.invites, Reserved(t, now), Reserved(t, now));
  }

  /** Marking lapsed invitations touches nothing but their status, in one workspace or for one user. */
  ghost predicate ExpiredAs(w: World, s: Scope, now: int, w': World) {
    && w' == w.(invites := w'.invites) && |w'.invites| == |w.invites|
    && forall i :: 0 <= i < |w.invites| ==>
         var v := w.invites[i];
         var mine := match s case OfTenant(t) => v.tenant == t case OfUser(u) => v.user == u;
         w'.invites[i] == if mine && Lapsed(v, now) then v.(status := Expired) else v
  }

  lemma ExpireExactly(w: World, s: Scope, now: int)
    ensures ExpiredAs(w, s, now, Expire(w, s, now))
  {
  }

  ghost predicate WithdrawnAs(w: World, i: nat, w': World, reply: Reply) {
    if i >= |w.invites| then Unmoved(w, w', reply, InvitationNotFound)
    else if !w.invites[i].status.Pending? then Unmoved(w, w', reply, InvitationNotPending)
    else reply == Done && w' == w.(invites := w.invites[i := w.invites[i].(status := Cancelled)])
  }

  lemma WithdrawExactly(w: World, i: nat)
    ensures WithdrawnAs(w, i, CancelInvitation(w, i).0, CancelInvitation(w, i).1)
  {
  }

  ghost predicate BelongsTo(members: seq<Membership>, k: int, user: nat, t: nat) {
    0 <= k < |members| && members[k].user == user && members[k].tenant == t
  }

  /** An answer given late marks the invitation lapsed; the same answer again changes nothing. Declining only settles
      the invitation; accepting needs an available workspace with a seat beside its residents, and makes the invited
      person an active member: under the role their old membership had, else as a new resident. */
  ghost predicate RespondedAs(w: World, user: nat, i: nat, accept: bool, now: int, w': World, reply: Reply) {
    if i >= |w.invites| || w.invites[i].user != user then Unmoved(w, w', reply, InvitationNotFound)
    else
      var v := w.invites[i];
      if Lapsed(v, now) then
        reply == Refused(InvitationNotPending) && w' == w.(invites := w.invites[i := v.(status := Expired)])
      else if (accept && v.status.Accepted?) || (!accept && v.status.Declined?) then w' == w && reply == Done
      else if !v.status.Pending? then Unmoved(w, w', reply, InvitationNotPending)
      else if !accept then reply == Done && w' == w.(invites := w.invites[i := v.(status := Declined)])
      else
        && v.tenant < |w.tenants|
        && if !w.tenants[v.tenant].active || w.tenants[v.tenant].closed then
             Unmoved(w, w', reply, WorkspaceUnavailable)
           else if Residents(w.members, v.tenant) >= w.tenants[v.tenant].limit then
             Unmoved(w, w', reply, MemberLimitReached)
           else
             && reply == Done
             && w' == w.(members := w'.members, invites := w.invites[i := v.(status := Accepted)])
             && MemberNow(w.members, user, v.tenant, w'.members)
  }

  ghost predicate MemberNow(members: seq<Membership>, user: nat, t: nat, members': seq<Membership>) {
    && (forall k :: BelongsTo(members, k, user, t) ==> members' == members[k := members[k].(status := Active)])
    && ((forall k :: !BelongsTo(members, k, user, t)) ==> members' == members + [Membership(user, t, Member, Active)])
  }

  lemma RespondExactly(w: World, user: nat, i: nat, accept: bool, now: int)
    requires Valid(w)
    ensures var r := Decide(ExpireOne(w, i, user, now), user, i, accept, now);
            RespondedAs(w, user, i, accept, now, r.0, r.1)
  {
    hide Valid; hide Sum; hide Joined; hide Residents; hide MemberNow;
    if i < |w.invites| {
      TenantOfInvitation(w, i);
      ResidentsCounted(w.members, w.invites[i].tenant);
      JoinExactly(w, user, w.invites[i].tenant);
    }
  }

  lemma TenantOfInvitation(w: World, i: nat)
    requires Valid(w) && i < |w.invites|
    ensures w.invites[i].tenant < |w.tenants|
  {
  }

  lemma JoinExactly(w: World, user: nat, t: nat)
    requires Valid(w)
    ensures MemberNow(w.members, user, t, Joined(w.members, user, t))
  {
    hide Find; hide Owned; hide ClosedEmpty; hide OnePending; hide Exclusive; hide RefsOk;
    NoneFor(w.members, user, t);
    var found := Find(w.members, RowOf(user, t));
    forall k | BelongsTo(w.members, k, user, t)
      ensures found == Some(k) && Joined(w.members, user, t) == w.members[k := w.members[k].(status := Active)]
    {
      var m := w.members[k];
      assert m.(status := Active, role := if m.role.Owner? then Owner else Member) == m.(status := Active);
    }
    assert found.Some? ==> BelongsTo(w.members, found.value, user, t);
  }

  // ---------- platform ----------

  /** A role changes on an active membership only, and not from the workspace's only active owner. */
  ghost predicate RoleSetAs(w: World, k: nat, role: Role, w': World, reply: Reply) {
    if k >= |w.members| then Unmoved(w, w', reply, NotFound)
    else
      var m := w.members[k];
      if !m.status.Active? then Unmoved(w, w', reply, NotActive)
      else if m.role.Owner? && role.Member? && (forall j :: OwnerAt(w.members, j, m.tenant) ==> j == k) then
        Unmoved(w, w', reply, LastWorkspaceOwnerProtected)
      else reply == Done && w' == w.(members := w.members[k := m.(role := role)])
  }

  lemma SetRoleExactly(w: World, k: nat, role: Role)
    ensures RoleSetAs(w, k, role, SetRole(w, k, role).0, SetRole(w, k, role).1)
  {
    hide OtherOwner;
    if k < |w.members| { OnlyOwner(w.members, w.members[k].tenant, k); }
  }

  /** A root is an active account with both staff flags. */
  ghost predicate RootAt(users: seq<User>, u: int) {
    0 <= u < |users| && users[u].staff && users[u].superuser && users[u].active
  }

  /** The flags named in a request take the requested values, the others keep theirs; refused exactly when something
      would change and no active root would be left. */
  ghost predicate RolesUpdatedAs(w: World, u: nat, f: Flags, w': World, reply: Reply) {
    if u >= |w.users| then Unmoved(w, w', reply, NotFound)
    else
      var user := w.users[u];
      var staff := if f.staff.Some? then f.staff.value else user.staff;
      var superuser := if f.superuser.Some? then f.superuser.value else user.superuser;
      var active := if f.active.Some? then f.active.value else user.active;
      var changes := staff != user.staff || superuser != user.superuser || active != user.active;
      if changes && !(staff && superuser && active) && (forall j :: RootAt(w.users, j) ==> j == u) then
        Unmoved(w, w', reply, LastRootProtected)
      else reply == Done && w' == w.(users := w.users[u := User(staff, superuser, active, user.deleted)])
  }

  lemma UpdateRolesExactly(w: World, u: nat, f: Flags)
    ensures RolesUpdatedAs(w, u, f, UpdateRoles(w, u, f).0, UpdateRoles(w, u, f).1)
  {
    hide OtherRoot;
    OnlyRoot(w.users, u);
  }

  lemma OnlyRoot(users: seq<User>, u: nat)
    ensures !OtherRoot(users, u) <==> forall j :: RootAt(users, j) ==> j == u
  {
    if !OtherRoot(users, u) {
      forall j | RootAt(users, j) ensures j == u { assert IsRoot(users[j]); }
    } else {
      var j :| 0 <= j < |users| && j != u && IsRoot(users[j]);
      assert RootAt(users, j);
    }
  }

  /** Deleting an account ends its active memberships, cancels its pending invitations and strips its flags; owners
      and the only active root are refused, and a deleted account stays as it is. */
  ghost predicate DeletedAs(w: World, u: nat, w': World, reply: Reply) {
    if u >= |w.users| then Unmoved(w, w', reply, NotFound)
    else if w.users[u].deleted then w' == w && reply == Done
    else if exists k :: 0 <= k < |w.members| && w.members[k].user == u && OwnerAt(w.members, k, w.members[k].tenant)
      then Unmoved(w, w', reply, OwnsWorkspaces)
    else if RootAt(w.users, u) && (forall j :: RootAt(w.users, j) ==> j == u) then
      Unmoved(w, w', reply, LastRootAccount)
    else
      && reply == Done && w'.tenants == w.tenants && w'.users == w.users[u := User(false, false, false, true)]
      && |w'.members| == |w.members| && |w'.invites| == |w.invites|
      && (forall k :: 0 <= k < |w.members| ==>
            var m := w.members[k];
            w'.members[k] == if m.user == u && m.status.Active? then m.(status := Left) else m)
      && (forall i :: 0 <= i < |w.invites| ==>
            var v := w.invites[i];
            w'.invites[i] == if v.user == u && v.status.Pending? then v.(status := Cancelled) else v)
  }

  lemma DeleteExactly(w: World, u: nat)
    ensures DeletedAs(w, u, DeleteAccount(w, u).0, DeleteAccount(w, u).1)
  {
    hide OtherRoot; hide OwnsAny;
    OnlyRoot(w.users, u);
    OwnsSomething(w.members, u);
  }

  lemma OwnsSomething(members: seq<Membership>, u: nat)
    ensures OwnsAny(members, u) <==>
              exists k :: 0 <= k < |members| && members[k].user == u && OwnerAt(members, k, members[k].tenant)
  {
    if OwnsAny(members, u) {
      var k :| 0 <= k < |members| && members[k].user == u && members[k].role.Owner? && members[k].status.Active?;
      assert OwnerAt(members, k, members[k].tenant);
    }
  }

  // ---------- every step of a run ----------

  /** Each step leaves what its own rule says. */
  ghost predicate SteppedAs(w: World, op: Op, now: int, w': World) {
    match op
    case SignUpOp => w' == w.(users := w.users + [User(false, false, true, false)])
    case CreateTenantOp(user, accountLimit, slugTaken, seatLimit) =>
      exists reply :: CreatedAs(w, user, accountLimit, slugTaken, seatLimit, w', reply)
    case CloseOp(actor, t) => exists reply :: ClosedAs(w, actor, t, w', reply)
    case LeaveOp(user, t) => exists reply :: LeftAs(w, user, t, w', reply)
    case RemoveOp(k) => exists reply :: RemovedAs(w, k, w', reply)
    case TransferOp(actor, k, accountLimit) => exists reply :: TransferredAs(w, actor, k, accountLimit, w', reply)
    case InviteOp(t, user) => exists reply :: InvitedAs(w, t, user, now, w', reply)
    case CancelOp(i) => exists reply :: WithdrawnAs(w, i, w', reply)
    case ExpireOp(scope) => ExpiredAs(w, scope, now, w')
    case ExpireOneOp(i, user) =>
      w' == if MineLapsed(w, i, user, now) then w.(invites := w.invites[i := w.invites[i].(status := Expired)]) else w
    case DecideOp(user, i, accept) =>
      if MineLapsed(w, i, user, now) then w' == w else exists reply :: RespondedAs(w, user, i, accept, now, w', reply)
    case SetRoleOp(k, role) => exists reply :: RoleSetAs(w, k, role, w', reply)
    case UpdateRolesOp(u, f) => exists reply :: RolesUpdatedAs(w, u, f, w', reply)
    case DeleteAccountOp(u) => exists reply :: DeletedAs(w, u, w', reply)
    case SetActiveOp(t, active) =>
      w' == if t < |w.tenants| then w.(tenants := w.tenants[t := w.tenants[t].(active := active)]) else w
    case SetLimitOp(t, limit) =>
      w' == if t < |w.tenants| then w.(tenants := w.tenants[t := w.tenants[t].(limit := limit)]) else w
  }

  predicate MineLapsed(w: World, i: nat, user: nat, now: int) {
    i < |w.invites| && w.invites[i].user == user && Lapsed(w.invites[i], now)
  }

  lemma StepExactly(w: World, op: Op, now: int)
    requires Valid(w)
    ensures SteppedAs(w, op, now, Step(w, op, now))
  {
    hide Valid; hide CreateTenant; hide Close; hide Leave; hide Remove; hide Transfer; hide Invite; hide Expire;
    hide CancelInvitation; hide Decide; hide SetRole; hide UpdateRoles; hide DeleteAccount;
    hide CreatedAs; hide ClosedAs; hide LeftAs; hide RemovedAs; hide TransferredAs; hide InvitedAs; hide WithdrawnAs;
    hide ExpiredAs; hide RespondedAs; hide RoleSetAs; hide RolesUpdatedAs; hide DeletedAs;
    match op
    case CreateTenantOp(user, accountLimit, slugTaken, seatLimit) =>
      CreateExactly(w, user, accountLimit, slugTaken, seatLimit);
    case CloseOp(actor, t) => CloseExactly(w, actor, t);
    case LeaveOp(user, t) => LeaveExactly(w, user, t);
    case RemoveOp(k) => RemoveExactly(w, k);
    case TransferOp(actor, k, accountLimit) => TransferExactly(w, actor, k, accountLimit);
    case InviteOp(t, user) => InviteExactly(w, t, user, now);
    case CancelOp(i) => WithdrawExactly(w, i);
    case ExpireOp(scope) => ExpireExactly(w, scope, now);
    case DecideOp(user, i, accept) =>
      RespondExactly(w, user, i, accept, now);
      LapsedIsRefused(w, user, i, accept, now);
    case SetRoleOp(k, role) => SetRoleExactly(w, k, role);
    case UpdateRolesOp(u, f) => UpdateRolesExactly(w, u, f);
    case DeleteAccountOp(u) => DeleteExactly(w, u);
    case _ =>
  }

  /** A decision on a lapsed invitation changes nothing, and on any other one expiry has nothing to mark. */
  lemma LapsedIsRefused(w: World, user: nat, i: nat, accept: bool, now: int)
    ensures MineLapsed(w, i, user, now) ==> Decide(w, user, i, accept, now).0 == w
    ensures !MineLapsed(w, i, user, now) ==> ExpireOne(w, i, user, now) == w
  {
    hide Sum; hide Joined;
  }

  /** Whatever happened before, the next step does what its rule says. */
  lemma {:induction false} RunExactly(w: World, ops: seq<(Op, int)>, op: Op, now: int)
    requires Valid(w)
    ensures Valid(Run(w, ops))
    ensures SteppedAs(Run(w, ops), op, now, Run(w, ops + [(op, now)]))
  {
    hide SteppedAs; hide Step; hide Valid;
    RunKeeps(w, ops);
    assert (ops + [(op, now)])[..|ops|] == ops;
    StepExactly(Run(w, ops), op, now);
  }

  lemma {:induction false} RunKeeps(w: World, ops: seq<(Op, int)>)
    requires Valid(w)
    ensures Valid(Run(w, ops))
  {
    hide Valid; hide Step;
    if ops != [] {
      var n := |ops| - 1;
      RunKeeps(w, ops[..n]);
      StepKeeps(Run(w, ops[..n]), ops[n].0, ops[n].1);
    }
  }
}
