/** Owners, roots, seats and unique memberships: what every run of workspace operations keeps. */
module WorkspaceSafety {
  import opened Tables
  import opened Workspaces

  // ---------- the invariant ----------

  ghost predicate RefsOk(w: World) {
    && (forall k :: 0 <= k < |w.members| ==> w.members[k].tenant < |w.tenants|)
    && (forall i :: 0 <= i < |w.invites| ==> w.invites[i].tenant < |w.tenants|)
  }

  ghost predicate MembersUnique(members: seq<Membership>) {
    forall j, k :: 0 <= j < k < |members| && members[j].user == members[k].user ==>
        members[j].tenant != members[k].tenant
  }

  ghost predicate HasOwner(members: seq<Membership>, t: nat) {
    exists k :: 0 <= k < |members| && OwnsTenant(members[k], t)
  }

  ghost predicate Owned(w: World) {
    forall t :: 0 <= t < |w.tenants| && !w.tenants[t].closed ==> HasOwner(w.members, t)
  }

  ghost predicate ClosedEmpty(w: World) {
    forall k :: 0 <= k < |w.members| && w.members[k].tenant < |w.tenants| && w.tenants[w.members[k].tenant].closed
      ==> !w.members[k].status.Active?
  }

  ghost predicate OnePending(invites: seq<Invitation>) {
    forall i, j :: 0 <= i < j < |invites| && invites[i].status.Pending? && invites[j].status.Pending? ==>
      invites[i].user == invites[j].user ==> invites[i].tenant != invites[j].tenant
  }

  /** Nobody is both an active member of a workspace and invited to it. */
  ghost predicate Exclusive(members: seq<Membership>, invites: seq<Invitation>) {
    forall k, i :: 0 <= k < |members| && 0 <= i < |invites| ==>
      members[k].status.Active? && invites[i].status.Pending? ==>
        members[k].user == invites[i].user ==> members[k].tenant != invites[i].tenant
  }

  ghost predicate Valid(w: World) {
    && RefsOk(w) && MembersUnique(w.members) && Owned(w) && ClosedEmpty(w)
    && OnePending(w.invites) && Exclusive(w.members, w.invites)
  }

  ghost predicate RootAlive(users: seq<User>) { exists u :: 0 <= u < |users| && IsRoot(users[u]) }

  // ---------- lookups ----------

  lemma NoneActive(members: seq<Membership>, u: nat, t: nat)
    ensures var r := Find(members, ActiveRowOf(u, t));
            && (r.Some? ==> ActiveRowOf(u, t)(members[r.value]))
            && (r.None? <==> forall k :: 0 <= k < |members| ==>
                  !(members[k].user == u && members[k].tenant == t && members[k].status.Active?))
  {
    var r := Find(members, ActiveRowOf(u, t));
    if r.Some? { assert ActiveRowOf(u, t)(members[r.value]); }
    if r.None? { assert forall k :: 0 <= k < |members| ==> !ActiveRowOf(u, t)(members[k]); }
  }

  lemma NoneFor(members: seq<Membership>, u: nat, t: nat)
    ensures var r := Find(members, RowOf(u, t));
            && (r.Some? ==> members[r.value].user == u && members[r.value].tenant == t)
            && (r.None? <==> forall k :: 0 <= k < |members| ==> !(members[k].user == u && members[k].tenant == t))
  {
    var r := Find(members, RowOf(u, t));
    if r.Some? { assert RowOf(u, t)(members[r.value]); }
    if r.None? { assert forall k :: 0 <= k < |members| ==> !RowOf(u, t)(members[k]); }
  }

  lemma NonePending(invites: seq<Invitation>, u: nat, t: nat)
    ensures Find(invites, PendingFor(u, t)).None? <==>
              forall i :: 0 <= i < |invites| ==>
                  !(invites[i].user == u && invites[i].tenant == t && invites[i].status.Pending?)
  {
    var r := Find(invites, PendingFor(u, t));
    if r.Some? { assert PendingFor(u, t)(invites[r.value]); }
    if r.None? { assert forall k :: 0 <= k < |invites| ==> !PendingFor(u, t)(invites[k]); }
  }

  // ---------- each part of the invariant, by shape of the change ----------

  /** Invitations only lose their PENDING status. */
  ghost predicate InvitesSettle(a: seq<Invitation>, b: seq<Invitation>) {
    |b| == |a| && forall i :: 0 <= i < |a| ==>
      b[i] == a[i] || (a[i].status.Pending? && !b[i].status.Pending? && b[i] == a[i].(status := b[i].status))
  }

  /** Memberships only lose their ACTIVE status, and no owner of t loses it. */
  ghost predicate MembersEnd(a: seq<Membership>, b: seq<Membership>) {
    |b| == |a| && forall k :: 0 <= k < |a| ==>
      b[k] == a[k] || (!b[k].status.Active? && b[k] == a[k].(status := b[k].status))
  }

  lemma SettleKeeps(w: World, invites: seq<Invitation>)
    requires Valid(w) && InvitesSettle(w.invites, invites)
    ensures Valid(w.(invites := invites))
  {
  }

  lemma EndKeeps(w: World, members: seq<Membership>)
    requires Valid(w) && MembersEnd(w.members, members)
    requires forall t :: 0 <= t < |w.tenants| && !w.tenants[t].closed ==> HasOwner(members, t)
    ensures Valid(w.(members := members))
  {
    hide OnePending; hide HasOwner;
  }

  /** One row changes; every workspace that relied on it has another owner. */
  lemma OwnersWithout(w: World, k: nat, m: Membership)
    requires Owned(w) && k < |w.members|
    requires OwnsTenant(w.members[k], w.members[k].tenant) ==>
               OtherOwner(w.members, w.members[k].tenant, k) || OwnsTenant(m, w.members[k].tenant)
    ensures forall t :: 0 <= t < |w.tenants| && !w.tenants[t].closed ==> HasOwner(w.members[k := m], t)
  {
    forall t | 0 <= t < |w.tenants| && !w.tenants[t].closed ensures HasOwner(w.members[k := m], t) {
      var j :| 0 <= j < |w.members| && OwnsTenant(w.members[j], t);
      if j == k {
        if OtherOwner(w.members, t, k) {
          var o :| 0 <= o < |w.members| && o != k && OwnsTenant(w.members[o], t);
          assert OwnsTenant(w.members[k := m][o], t);
        } else {
          assert OwnsTenant(w.members[k := m][k], t);
        }
      } else {
        assert OwnsTenant(w.members[k := m][j], t);
      }
    }
  }

  lemma LeaveKeeps(w: World, user: nat, t: nat)
    requires Valid(w)
    ensures Valid(Leave(w, user, t).0)
  {
    NoneActive(w.members, user, t);
    var r := Find(w.members, ActiveRowOf(user, t));
    if r.Some? && !(w.members[r.value].role.Owner? && !OtherOwner(w.members, t, r.value)) {
      var m := w.members[r.value].(status := Left);
      OwnersWithout(w, r.value, m);
      hide Valid; hide Find; hide HasOwner;
      EndKeeps(w, w.members[r.value := m]);
    }
  }

  lemma RemoveKeeps(w: World, k: nat)
    requires Valid(w)
    ensures Valid(Remove(w, k).0)
  {
    if k < |w.members| && w.members[k].role.Member? && w.members[k].status.Active? {
      var m := w.members[k].(status := Removed);
      OwnersWithout(w, k, m);
      hide Valid; hide HasOwner;
      EndKeeps(w, w.members[k := m]);
    }
  }

  lemma RoleKeeps(w: World, k: nat, role: Role)
    requires Valid(w) && k < |w.members|
    requires OwnsTenant(w.members[k], w.members[k].tenant) && role.Member? ==>
        OtherOwner(w.members, w.members[k].tenant, k)
    ensures Valid(w.(members := w.members[k := w.members[k].(role := role)]))
  {
    OwnersWithout(w, k, w.members[k].(role := role));
    hide OnePending; hide HasOwner;
  }

  /** The new owner is in place before the old one steps down. */
  lemma TransferKeeps(w: World, actor: nat, k: nat, accountLimit: nat)
    requires Valid(w)
    ensures Valid(Transfer(w, actor, k, accountLimit).0)
  {
    hide Valid; hide Find; hide Sum;
    if Transfer(w, actor, k, accountLimit).1.Done? {
      var target := w.members[k];
      var c := Find(w.members, ActiveRowOf(actor, target.tenant)).value;
      NoneActive(w.members, actor, target.tenant);
      RoleKeeps(w, k, Owner);
      var w1 := w.(members := w.members[k := target.(role := Owner)]);
      assert w1.members[k] == target.(role := Owner) && OwnsTenant(w1.members[k], target.tenant);
      assert OtherOwner(w1.members, w1.members[c].tenant, c);
      RoleKeeps(w1, c, Member);
    }
  }

  lemma SetRoleKeeps(w: World, k: nat, role: Role)
    requires Valid(w)
    ensures Valid(SetRole(w, k, role).0)
  {
    hide Valid;
    if SetRole(w, k, role).0 != w { RoleKeeps(w, k, role); }
  }

  lemma CloseKeeps(w: World, actor: nat, t: nat)
    requires Valid(w)
    ensures Valid(Close(w, actor, t).0)
  {
    if t < |w.tenants| && !OthersActive(w.members, actor, t) {
      var members, invites := UpdateAll(w.members, LeaveAs(actor, t)), UpdateAll(w.invites, CancelIn(t));
      assert InvitesSettle(w.invites, invites);
      SettleKeeps(w, invites);
      hide UpdateAll;
      var w' := Close(w, actor, t).0;
      CloseOwners(w, actor, t);
      assert ClosedEmpty(w') by { CloseEmpties(w, actor, t); }
      assert RefsOk(w') && MembersUnique(members);
      hide OnePending; hide Owned; hide ClosedEmpty; hide MembersUnique; hide RefsOk;
    }
  }

  lemma CloseEmpties(w: World, actor: nat, t: nat)
    requires ClosedEmpty(w) && t < |w.tenants| && !OthersActive(w.members, actor, t)
    ensures ClosedEmpty(Close(w, actor, t).0)
  {
    var w' := Close(w, actor, t).0;
    forall k | 0 <= k < |w'.members| && w'.members[k].tenant < |w'.tenants| && w'.tenants[w'.members[k].tenant].closed
      ensures !w'.members[k].status.Active?
    {
      assert w'.members[k] == LeaveAs(actor, t)(w.members[k]);
    }
  }

  lemma CloseOwners(w: World, actor: nat, t: nat)
    requires Owned(w) && t < |w.tenants| && !OthersActive(w.members, actor, t)
    ensures Owned(Close(w, actor, t).0)
  {
    var w' := Close(w, actor, t).0;
    forall s | 0 <= s < |w'.tenants| && !w'.tenants[s].closed ensures HasOwner(w'.members, s) {
      var k :| 0 <= k < |w.members| && OwnsTenant(w.members[k], s);
      assert w'.members[k] == w.members[k];
    }
  }

  lemma DeleteKeeps(w: World, u: nat)
    requires Valid(w)
    ensures Valid(DeleteAccount(w, u).0)
  {
    if DeleteAccount(w, u).0 != w {
      var members, invites := UpdateAll(w.members, EndAll(u)), UpdateAll(w.invites, CancelFor(u));
      forall t | 0 <= t < |w.tenants| && !w.tenants[t].closed ensures HasOwner(members, t) {
        var k :| 0 <= k < |w.members| && OwnsTenant(w.members[k], t);
        assert members[k] == w.members[k];
      }
      hide Valid; hide HasOwner; hide UpdateAll;
      EndKeeps(w, members);
      SettleKeeps(w.(members := members), invites);
      UsersFree(w.(members := members, invites := invites), DeleteAccount(w, u).0.users);
    }
  }

  /** Accounts do not matter for workspace invariants. */
  lemma UsersFree(w: World, users: seq<User>)
    requires Valid(w)
    ensures Valid(w.(users := users))
  {
  }

  lemma CreateKeeps(w: World, user: nat, accountLimit: nat, slugTaken: bool, seatLimit: nat)
    requires Valid(w)
    ensures Valid(CreateTenant(w, user, accountLimit, slugTaken, seatLimit).0)
  {
    hide Sum;
    var w' := CreateTenant(w, user, accountLimit, slugTaken, seatLimit).0;
    if w' != w {
      assert Owned(w') by {
        forall t | 0 <= t < |w'.tenants| && !w'.tenants[t].closed ensures HasOwner(w'.members, t) {
          if t < |w.tenants| {
            var k :| 0 <= k < |w.members| && OwnsTenant(w.members[k], t);
            assert OwnsTenant(w'.members[k], t);
          } else {
            assert OwnsTenant(w'.members[|w.members|], t);
          }
        }
      }
      hide Owned; hide OnePending;
    }
  }

  lemma ExpireKeeps(w: World, s: Scope, now: int)
    requires Valid(w)
    ensures Valid(Expire(w, s, now))
  {
    hide Valid; hide UpdateAll;
    SettleKeeps(w, UpdateAll(w.invites, ExpireIn(s, now)));
  }

  lemma InviteKeeps(w: World, t: nat, user: nat, now: int)
    requires Valid(w)
    ensures Valid(Invite(w, t, user, now).0)
  {
    hide Sum; hide Find; hide Expire; hide SeatsUsed; hide Valid;
    var r := Invite(w, t, user, now);
    if r.1.Done? {
      NoneActive(w.members, user, t);
      var current := Expire(w, OfTenant(t), now);
      ExpireKeeps(w, OfTenant(t), now);
      ExpireLeaves(w, OfTenant(t), now);
      NonePending(current.invites, user, t);
      AddInvitationKeeps(current, Invitation(t, user, Pending, now + INVITATION_EXPIRY));
    }
  }

  lemma ExpireLeaves(w: World, s: Scope, now: int)
    ensures var w' := Expire(w, s, now); w'.members == w.members && w'.tenants == w.tenants && w'.users == w.users
  {
  }

  lemma AddInvitationKeeps(w: World, i: Invitation)
    requires Valid(w) && i.tenant < |w.tenants|
    requires forall k :: 0 <= k < |w.members| ==>
               !(w.members[k].user == i.user && w.members[k].tenant == i.tenant && w.members[k].status.Active?)
    requires forall j :: 0 <= j < |w.invites| ==>
               !(w.invites[j].user == i.user && w.invites[j].tenant == i.tenant && w.invites[j].status.Pending?)
    ensures Valid(w.(invites := w.invites + [i]))
  {
    hide HasOwner; hide MembersUnique;
  }

  lemma SettleOneKeeps(w: World, i: nat, status: InvitationStatus)
    requires Valid(w) && i < |w.invites| && w.invites[i].status.Pending? && !status.Pending?
    ensures Valid(w.(invites := w.invites[i := w.invites[i].(status := status)]))
  {
    hide Valid;
    SettleKeeps(w, w.invites[i := w.invites[i].(status := status)]);
  }

  /** Joining: only for a workspace that is open, and only someone whose invitation is settled with it. */
  lemma JoinedKeeps(w: World, user: nat, t: nat)
    requires Valid(w) && t < |w.tenants| && !w.tenants[t].closed
    requires forall i :: 0 <= i < |w.invites| ==>
        !(w.invites[i].user == user && w.invites[i].tenant == t && w.invites[i].status.Pending?)
    ensures Valid(w.(members := Joined(w.members, user, t)))
  {
    NoneFor(w.members, user, t);
    hide Find;
    var members := Joined(w.members, user, t);
    assert Owned(w.(members := members)) by {
      forall s | 0 <= s < |w.tenants| && !w.tenants[s].closed ensures HasOwner(members, s) {
        var k :| 0 <= k < |w.members| && OwnsTenant(w.members[k], s);
        assert OwnsTenant(members[k], s);
      }
    }
    hide Owned; hide OnePending;
  }

  lemma DecideKeeps(w: World, user: nat, i: nat, accept: bool, now: int)
    requires Valid(w)
    ensures Valid(Decide(w, user, i, accept, now).0)
  {
    hide Sum; hide Joined;
    var w' := Decide(w, user, i, accept, now).0;
    if w' != w {
      var t := w.invites[i].tenant;
      var settled := w.(invites := w'.invites);
      assert forall j :: 0 <= j < |settled.invites| ==>
        !(settled.invites[j].user == user && settled.invites[j].tenant == t && settled.invites[j].status.Pending?);
      hide Valid; hide OnePending;
      SettleOneKeeps(w, i, w'.invites[i].status);
      if accept { JoinedKeeps(settled, user, t); }
    }
  }

  lemma TenantFieldsFree(w: World, t: nat, row: Tenant)
    requires Valid(w) && t < |w.tenants| && row.closed == w.tenants[t].closed
    ensures Valid(w.(tenants := w.tenants[t := row]))
  {
    hide HasOwner; hide OnePending; hide MembersUnique; hide Exclusive;
  }

  lemma StepKeeps(w: World, op: Op, now: int)
    requires Valid(w)
    ensures Valid(Step(w, op, now))
  {
    hide Valid; hide CreateTenant; hide Close; hide Leave; hide Remove; hide Transfer; hide Invite; hide Expire;
    hide Decide;
    hide SetRole; hide DeleteAccount;
    match op
    case SignUpOp => UsersFree(w, Step(w, op, now).users);
    case CreateTenantOp(user, accountLimit, slugTaken, seatLimit) =>
      CreateKeeps(w, user, accountLimit, slugTaken, seatLimit);
    case CloseOp(actor, t) => CloseKeeps(w, actor, t);
    case LeaveOp(user, t) => LeaveKeeps(w, user, t);
    case RemoveOp(k) => RemoveKeeps(w, k);
    case TransferOp(actor, k, accountLimit) => TransferKeeps(w, actor, k, accountLimit);
    case InviteOp(t, user) => InviteKeeps(w, t, user, now);
    case CancelOp(i) => if i < |w.invites| && w.invites[i].status.Pending? { SettleOneKeeps(w, i, Cancelled); }
    case ExpireOp(scope) => ExpireKeeps(w, scope, now);
    case ExpireOneOp(i, user) => if i < |w.invites| && w.invites[i].status.Pending? { SettleOneKeeps(w, i, Expired); }
    case DecideOp(user, i, accept) => DecideKeeps(w, user, i, accept, now);
    case SetRoleOp(k, role) => SetRoleKeeps(w, k, role);
    case UpdateRolesOp(u, f) => UsersFree(w, Step(w, op, now).users);
    case DeleteAccountOp(u) => DeleteKeeps(w, u);
    case SetActiveOp(t, active) => if t < |w.tenants| { TenantFieldsFree(w, t, w.tenants[t].(active := active)); }
    case SetLimitOp(t, limit) => if t < |w.tenants| { TenantFieldsFree(w, t, w.tenants[t].(limit := limit)); }
  }

  /** Over every run: each open workspace has an active owner, a closed one has no active member, memberships
      are unique per person and workspace, nobody has two pending invitations to one, and nobody is both an
      active member of a workspace and invited to it. */
  lemma {:induction false} RunsStayValid(w: World, ops: seq<(Op, int)>)
    requires Valid(w)
    ensures Valid(Run(w, ops))
  {
    hide Valid; hide Step;
    if ops != [] {
      RunsStayValid(w, ops[..|ops| - 1]);
      StepKeeps(Run(w, ops[..|ops| - 1]), ops[|ops| - 1].0, ops[|ops| - 1].1);
    }
  }

  // ---------- closed for good ----------

  lemma TenantsStay(w: World, op: Op, now: int)
    ensures var w' := Step(w, op, now);
            |w.tenants| <= |w'.tenants| && forall t :: 0 <= t < |w.tenants| && w.tenants[t].closed ==>
                w'.tenants[t].closed
  {
    hide Sum; hide Find; hide Joined; hide OtherOwner; hide OtherRoot; hide UpdateAll;
  }

  /** A closed workspace stays closed and never has an active member again, whatever is done afterwards. */
  lemma {:induction false} ClosedForever(w: World, ops: seq<(Op, int)>, t: nat)
    requires Valid(w) && t < |w.tenants| && w.tenants[t].closed
    ensures t < |Run(w, ops).tenants| && Run(w, ops).tenants[t].closed
    ensures forall k :: 0 <= k < |Run(w, ops).members| && Run(w, ops).members[k].tenant == t ==>
        !Run(w, ops).members[k].status.Active?
  {
    hide Step;
    RunsStayValid(w, ops);
    if ops != [] {
      ClosedForever(w, ops[..|ops| - 1], t);
      TenantsStay(Run(w, ops[..|ops| - 1]), ops[|ops| - 1].0, ops[|ops| - 1].1);
    }
    hide Owned; hide OnePending; hide Exclusive; hide MembersUnique;
  }

  // ---------- roots ----------

  /** The last active root can neither be demoted, nor disabled, nor deleted. */
  lemma RootSurvives(w: World, op: Op, now: int)
    requires RootAlive(w.users)
    ensures RootAlive(Step(w, op, now).users)
  {
    hide Sum; hide Find; hide Joined; hide UpdateAll;
    var u :| 0 <= u < |w.users| && IsRoot(w.users[u]);
    var users := Step(w, op, now).users;
    match op
    case UpdateRolesOp(v, f) =>
      if users != w.users {
        if u != v {
          assert IsRoot(users[u]);
        } else {
          var o :| 0 <= o < |w.users| && o != v && IsRoot(w.users[o]);
          assert IsRoot(users[o]);
        }
      }
    case DeleteAccountOp(v) =>
      if users != w.users {
        if u != v {
          assert IsRoot(users[u]);
        } else {
          var o :| 0 <= o < |w.users| && o != v && IsRoot(w.users[o]);
          assert IsRoot(users[o]);
        }
      }
    case SignUpOp => assert IsRoot(users[u]);
    case _ => assert users == w.users;
  }

  lemma {:induction false} RootForever(w: World, ops: seq<(Op, int)>)
    requires RootAlive(w.users)
    ensures RootAlive(Run(w, ops).users)
  {
    hide RootAlive; hide Step;
    if ops != [] {
      RootForever(w, ops[..|ops| - 1]);
      RootSurvives(Run(w, ops[..|ops| - 1]), ops[|ops| - 1].0, ops[|ops| - 1].1);
    }
  }
}
