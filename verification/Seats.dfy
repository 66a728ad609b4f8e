/** Reserved seats: an invitation holds the seat its acceptance will need. */
module Seats {
  import opened Tables
  import opened Workspaces
  import opened WorkspaceSafety

  function Max(a: int, b: int): int { if a >= b then a else b }

  /** Time only releases seats. */
  lemma TimeReleases(w: World, t: nat, now: int, later: int)
    requires now <= later
    ensures SeatsUsed(w, t, later) <= SeatsUsed(w, t, now)
  {
    SumAtMost(w.invites, w.invites, Reserved(t, later), Reserved(t, now));
  }

  lemma FewerMembers(a: seq<Membership>, b: seq<Membership>, t: nat)
    requires |a| == |b| && forall k :: 0 <= k < |a| ==> b[k].tenant == a[k].tenant && b[k].role == a[k].role
                                                          && (b[k].status.Active? ==> a[k].status.Active?)
    ensures Sum(b, ActiveMember(t)) <= Sum(a, ActiveMember(t))
  {
    SumAtMost(b, a, ActiveMember(t), ActiveMember(t));
  }

  lemma FewerReserved(a: seq<Invitation>, b: seq<Invitation>, t: nat, now: int)
    requires InvitesSettle(a, b)
    ensures Sum(b, Reserved(t, now)) <= Sum(a, Reserved(t, now))
  {
    SumAtMost(b, a, Reserved(t, now), Reserved(t, now));
  }

  lemma SettleFrees(w: World, i: nat, status: InvitationStatus, t: nat, now: int)
    requires i < |w.invites| && !status.Pending?
    ensures SeatsUsed(w.(invites := w.invites[i := w.invites[i].(status := status)]), t, now)
            == SeatsUsed(w, t, now) - Reserved(t, now)(w.invites[i])
  {
    SumUpdate(w.invites, i, w.invites[i].(status := status), Reserved(t, now));
    hide Sum;
  }

  lemma RowChange(w: World, k: nat, m: Membership, t: nat, now: int)
    requires k < |w.members|
    ensures SeatsUsed(w.(members := w.members[k := m]), t, now)
            == SeatsUsed(w, t, now) - ActiveMember(t)(w.members[k]) + ActiveMember(t)(m)
  {
    SumUpdate(w.members, k, m, ActiveMember(t));
    hide Sum;
  }

  lemma TransferSeats(w: World, actor: nat, k: nat, accountLimit: nat, t: nat, now: int)
    ensures SeatsUsed(Transfer(w, actor, k, accountLimit).0, t, now) <= SeatsUsed(w, t, now)
  {
    hide Sum; hide SeatsUsed;
    if Transfer(w, actor, k, accountLimit).1.Done? {
      var target := w.members[k];
      var c := Find(w.members, ActiveRowOf(actor, target.tenant)).value;
      NoneActive(w.members, actor, target.tenant);
      hide Find;
      var w1 := w.(members := w.members[k := target.(role := Owner)]);
      RowChange(w, k, target.(role := Owner), t, now);
      RowChange(w1, c, w.members[c].(role := Member), t, now);
    }
  }

  /** An invitation is created only into a free seat. */
  lemma InviteSeats(w: World, t': nat, user: nat, t: nat, now: int)
    requires t < |w.tenants|
    ensures SeatsUsed(Invite(w, t', user, now).0, t, now) <= Max(SeatsUsed(w, t, now), w.tenants[t].limit)
  {
    hide Sum; hide Find;
    var r := Invite(w, t', user, now);
    if r.1.Done? {
      var current := Expire(w, OfTenant(t'), now);
      FewerReserved(w.invites, current.invites, t, now);
      SumAppend(current.invites, Invitation(t', user, Pending, now + INVITATION_EXPIRY), Reserved(t, now));
    }
    hide Expire;
  }

  lemma JoinedSeats(members: seq<Membership>, user: nat, t': nat, t: nat)
    ensures Sum(Joined(members, user, t'), ActiveMember(t)) <= Sum(members, ActiveMember(t)) + if t == t' then 1 else 0
  {
    NoneFor(members, user, t');
    var r := Find(members, RowOf(user, t'));
    if r.Some? {
      SumUpdate(members, r.value, Joined(members, user, t')[r.value], ActiveMember(t));
    } else {
      SumAppend(members, Membership(user, t', Member, Active), ActiveMember(t));
    }
    hide Sum; hide Find;
  }

  /** Accepting trades the reserved seat for a taken one. */
  lemma DecideSeats(w: World, user: nat, i: nat, accept: bool, t: nat, now: int)
    ensures SeatsUsed(Decide(w, user, i, accept, now).0, t, now) <= SeatsUsed(w, t, now)
  {
    hide Sum; hide Joined;
    if i < |w.invites| {
      SumUpdate(w.invites, i, w.invites[i].(status := Accepted), Reserved(t, now));
      SumUpdate(w.invites, i, w.invites[i].(status := Declined), Reserved(t, now));
      JoinedSeats(w.members, user, w.invites[i].tenant, t);
    }
  }

  lemma CreateSeats(w: World, user: nat, accountLimit: nat, slugTaken: bool, seatLimit: nat, t: nat, now: int)
    ensures SeatsUsed(CreateTenant(w, user, accountLimit, slugTaken, seatLimit).0, t, now) == SeatsUsed(w, t, now)
  {
    SumAppend(w.members, Membership(user, |w.tenants|, Owner, Active), ActiveMember(t));
    hide Sum;
  }

  lemma BulkSeats(w: World, members: seq<Membership>, invites: seq<Invitation>, t: nat, now: int)
    requires MembersEnd(w.members, members) && InvitesSettle(w.invites, invites)
    ensures Sum(members, ActiveMember(t)) + Sum(invites, Reserved(t, now)) <= SeatsUsed(w, t, now)
  {
    FewerMembers(w.members, members, t);
    FewerReserved(w.invites, invites, t, now);
    hide Sum;
  }

  /** Platform promotion and demotion ignore plan limits; only a demotion takes a seat. */
  predicate TakesSeatByFiat(op: Op) { op.SetRoleOp? && op.role.Member? }

  /** No other operation pushes the seats in use beyond what they were or what the plan allows. */
  lemma StepSeats(w: World, op: Op, t: nat, now: int)
    requires t < |w.tenants| && !TakesSeatByFiat(op)
    ensures SeatsUsed(Step(w, op, now), t, now) <= Max(SeatsUsed(w, t, now), w.tenants[t].limit)
  {
    match op
    case CreateTenantOp(user, accountLimit, slugTaken, seatLimit) =>
      CreateSeats(w, user, accountLimit, slugTaken, seatLimit, t, now);
      hide CreateTenant;
    case InviteOp(t', user) => InviteSeats(w, t', user, t, now); hide Invite;
    case DecideOp(user, i, accept) => DecideSeats(w, user, i, accept, t, now); hide Decide;
    case TransferOp(actor, k, accountLimit) => TransferSeats(w, actor, k, accountLimit, t, now); hide Transfer;
    case _ => OtherSeats(w, op, t, now); hide Step;
  }

  /** The platform demotes an owner who is not the last one, in a workspace whose seats are all in use. */
  predicate Overbooks(w: World, op: Op, t: nat, now: int)
    requires t < |w.tenants|
  {
    && TakesSeatByFiat(op) && op.member < |w.members| && OwnsTenant(w.members[op.member], t)
    && OtherOwner(w.members, t, op.member) && SeatsUsed(w, t, now) >= w.tenants[t].limit
  }

  /** The bound breaks exactly then. */
  lemma OverbookedExactly(w: World, op: Op, t: nat, now: int)
    requires t < |w.tenants|
    ensures SeatsUsed(Step(w, op, now), t, now) > Max(SeatsUsed(w, t, now), w.tenants[t].limit)
        <==> Overbooks(w, op, t, now)
  {
    if TakesSeatByFiat(op) {
      hide Sum; hide SeatsUsed; hide OtherOwner;
      if op.member < |w.members| { RowChange(w, op.member, w.members[op.member].(role := Member), t, now); }
    } else {
      StepSeats(w, op, t, now);
      hide Step; hide SeatsUsed;
    }
  }

  lemma OtherSeats(w: World, op: Op, t: nat, now: int)
    requires !TakesSeatByFiat(op) && !op.CreateTenantOp? && !op.InviteOp? && !op.DecideOp? && !op.TransferOp?
    ensures SeatsUsed(Step(w, op, now), t, now) <= SeatsUsed(w, t, now)
  {
    hide Sum; hide SeatsUsed; hide OthersActive; hide OtherOwner; hide OtherRoot; hide OwnsAny;
    match op
    case CloseOp(actor, t') => CloseSeats(w, actor, t', t, now); hide Close;
    case DeleteAccountOp(u) => DeleteSeats(w, u, t, now); hide DeleteAccount;
    case ExpireOp(scope) => ExpireSeats(w, scope, t, now); hide Expire;
    case LeaveOp(user, t') =>
      var r := Find(w.members, ActiveRowOf(user, t'));
      if r.Some? { RowChange(w, r.value, w.members[r.value].(status := Left), t, now); }
      hide Find;
    case RemoveOp(k) => if k < |w.members| { RowChange(w, k, w.members[k].(status := Removed), t, now); }
    case SetRoleOp(k, role) => if k < |w.members| { RowChange(w, k, w.members[k].(role := role), t, now); }
    case CancelOp(i) => if i < |w.invites| { SettleFrees(w, i, Cancelled, t, now); }
    case ExpireOneOp(i, user) => if i < |w.invites| { SettleFrees(w, i, Expired, t, now); }
    case _ => SameRows(w, Step(w, op, now), t, now);
  }

  lemma SameRows(w: World, w': World, t: nat, now: int)
    requires w'.members == w.members && w'.invites == w.invites
    ensures SeatsUsed(w', t, now) == SeatsUsed(w, t, now)
  {
  }

  lemma CloseSeats(w: World, actor: nat, t': nat, t: nat, now: int)
    ensures SeatsUsed(Close(w, actor, t').0, t, now) <= SeatsUsed(w, t, now)
  {
    BulkSeats(w, UpdateAll(w.members, LeaveAs(actor, t')), UpdateAll(w.invites, CancelIn(t')), t, now);
    hide Sum; hide UpdateAll; hide OthersActive;
  }

  lemma DeleteSeats(w: World, u: nat, t: nat, now: int)
    ensures SeatsUsed(DeleteAccount(w, u).0, t, now) <= SeatsUsed(w, t, now)
  {
    BulkSeats(w, UpdateAll(w.members, EndAll(u)), UpdateAll(w.invites, CancelFor(u)), t, now);
    hide Sum; hide UpdateAll; hide OwnsAny; hide OtherRoot;
  }

  lemma ExpireSeats(w: World, s: Scope, t: nat, now: int)
    ensures SeatsUsed(Expire(w, s, now), t, now) <= SeatsUsed(w, t, now)
  {
    FewerReserved(w.invites, UpdateAll(w.invites, ExpireIn(s, now)), t, now);
    hide Sum; hide UpdateAll;
  }

  ghost predicate ClocksForward(start: int, ops: seq<(Op, int)>) {
    (ops != [] ==> start <= ops[0].1) && forall k :: 0 < k < |ops| ==> ops[k - 1].1 <= ops[k].1
  }

  function LastClock(start: int, ops: seq<(Op, int)>): int { if ops == [] then start else ops[|ops| - 1].1 }

  /** What leaves the limit of workspace t alone. */
  predicate LimitKept(op: Op, t: nat) { !(op.SetLimitOp? && op.tenant == t) }

  lemma LimitStays(w: World, op: Op, t: nat, now: int)
    requires t < |w.tenants| && LimitKept(op, t)
    ensures t < |Step(w, op, now).tenants| && Step(w, op, now).tenants[t].limit == w.tenants[t].limit
  {
    hide Sum; hide Find; hide Joined; hide OtherOwner; hide OtherRoot; hide UpdateAll; hide OthersActive; hide OwnsAny;
  }

  ghost predicate NeverOverbooks(w: World, ops: seq<(Op, int)>, t: nat) {
    forall k :: 0 <= k < |ops| ==>
      t < |Run(w, ops[..k]).tenants| && !Overbooks(Run(w, ops[..k]), ops[k].0, t, ops[k].1)
  }

  lemma Earlier(w: World, ops: seq<(Op, int)>, t: nat, start: int)
    requires ops != [] && NeverOverbooks(w, ops, t) && ClocksForward(start, ops)
    ensures NeverOverbooks(w, ops[..|ops| - 1], t) && ClocksForward(start, ops[..|ops| - 1])
    ensures var init := ops[..|ops| - 1];
            t < |Run(w, init).tenants| && !Overbooks(Run(w, init), ops[|ops| - 1].0, t, ops[|ops| - 1].1)
  {
    var init := ops[..|ops| - 1];
    forall k | 0 <= k < |init|
      ensures t < |Run(w, init[..k]).tenants| && !Overbooks(Run(w, init[..k]), init[k].0, t, init[k].1)
    {
      assert init[..k] == ops[..k];
    }
    hide Overbooks; hide Run;
  }

  /** Over any run at a fixed limit, unless an owner of this very workspace is demoted while its seats are all
      in use, seats in use never exceed what they were at the start or the limit. */
  lemma {:induction false} RunSeats(w: World, ops: seq<(Op, int)>, t: nat, start: int)
    requires t < |w.tenants| && ClocksForward(start, ops) && NeverOverbooks(w, ops, t)
    requires forall k :: 0 <= k < |ops| ==> LimitKept(ops[k].0, t)
    ensures t < |Run(w, ops).tenants| && Run(w, ops).tenants[t].limit == w.tenants[t].limit
    ensures SeatsUsed(Run(w, ops), t, LastClock(start, ops)) <= Max(SeatsUsed(w, t, start), w.tenants[t].limit)
  {
    if ops != [] {
      var init, op, now := ops[..|ops| - 1], ops[|ops| - 1].0, ops[|ops| - 1].1;
      Earlier(w, ops, t, start);
      hide SeatsUsed; hide Step; hide Overbooks; hide NeverOverbooks;
      RunSeats(w, init, t, start);
      LimitStays(Run(w, init), op, t, now);
      TimeReleases(Run(w, init), t, LastClock(start, init), now);
      OverbookedExactly(Run(w, init), op, t, now);
    }
  }

  /** Every point of a run stays within the limit. */
  ghost predicate WithinThroughout(w: World, ops: seq<(Op, int)>, t: nat, start: int) {
    forall k :: 0 <= k <= |ops| ==>
      && t < |Run(w, ops[..k]).tenants|
      && SeatsUsed(Run(w, ops[..k]), t, LastClock(start, ops[..k])) <= Run(w, ops[..k]).tenants[t].limit
  }

  lemma {:induction false} LimitThroughout(w: World, ops: seq<(Op, int)>, t: nat)
    requires t < |w.tenants| && forall k :: 0 <= k < |ops| ==> LimitKept(ops[k].0, t)
    ensures t < |Run(w, ops).tenants| && Run(w, ops).tenants[t].limit == w.tenants[t].limit
  {
    if ops != [] {
      hide Step;
      LimitThroughout(w, ops[..|ops| - 1], t);
      LimitStays(Run(w, ops[..|ops| - 1]), ops[|ops| - 1].0, t, ops[|ops| - 1].1);
    }
  }

  lemma PrefixOf(w: World, ops: seq<(Op, int)>, t: nat, start: int, n: nat)
    requires n <= |ops| && NeverOverbooks(w, ops, t) && ClocksForward(start, ops)
    ensures NeverOverbooks(w, ops[..n], t) && ClocksForward(start, ops[..n])
  {
    forall k | 0 <= k < n
      ensures t < |Run(w, ops[..n][..k]).tenants| && !Overbooks(Run(w, ops[..n][..k]), ops[..n][k].0, t, ops[..n][k].1)
    {
      assert ops[..n][..k] == ops[..k];
    }
    hide Overbooks; hide Run;
  }

  /** A workspace that starts within a fixed limit stays within it at every point of a run if and only if no
      step of the run overbooks it. */
  lemma RunSeatsExactly(w: World, ops: seq<(Op, int)>, t: nat, start: int)
    requires t < |w.tenants| && ClocksForward(start, ops) && SeatsUsed(w, t, start) <= w.tenants[t].limit
    requires forall k :: 0 <= k < |ops| ==> LimitKept(ops[k].0, t)
    ensures WithinThroughout(w, ops, t, start) <==> NeverOverbooks(w, ops, t)
  {
    hide Step; hide SeatsUsed; hide Overbooks; hide Run;
    if NeverOverbooks(w, ops, t) {
      forall k | 0 <= k <= |ops|
        ensures t < |Run(w, ops[..k]).tenants|
        ensures SeatsUsed(Run(w, ops[..k]), t, LastClock(start, ops[..k])) <= Run(w, ops[..k]).tenants[t].limit
      {
        PrefixOf(w, ops, t, start, k);
        RunSeats(w, ops[..k], t, start);
      }
    }
    if WithinThroughout(w, ops, t, start) {
      forall k | 0 <= k < |ops|
        ensures t < |Run(w, ops[..k]).tenants| && !Overbooks(Run(w, ops[..k]), ops[k].0, t, ops[k].1)
      {
        LimitThroughout(w, ops[..k], t);
        StepWithin(w, ops, t, start, k);
      }
    }
  }

  lemma StepWithin(w: World, ops: seq<(Op, int)>, t: nat, start: int, k: nat)
    requires k < |ops| && WithinThroughout(w, ops, t, start) && t < |Run(w, ops[..k]).tenants| && LimitKept(ops[k].0, t)
    ensures !Overbooks(Run(w, ops[..k]), ops[k].0, t, ops[k].1)
  {
    assert ops[..k + 1][..k] == ops[..k];
    assert Run(w, ops[..k + 1]) == Step(Run(w, ops[..k]), ops[k].0, ops[k].1);
    assert LastClock(start, ops[..k + 1]) == ops[k].1;
    hide Step; hide SeatsUsed; hide Overbooks; hide Run;
    LimitStays(Run(w, ops[..k]), ops[k].0, t, ops[k].1);
    OverbookedExactly(Run(w, ops[..k]), ops[k].0, t, ops[k].1);
  }

  // ---------- the reservation is worth something ----------

  lemma {:induction false} PendingCounts(invites: seq<Invitation>, i: nat, t: nat, now: int)
    requires i < |invites| && Reserved(t, now)(invites[i]) == 1
    ensures Sum(invites, Reserved(t, now)) >= 1
  {
    SumBounds(invites, Reserved(t, now));
    assert Reserved(t, now)(invites[i]) <= Sum(invites, Reserved(t, now));
  }

  /** An unexpired pending invitation can be accepted by the person it names if and only if the workspace is
      available and has fewer active members than its limit; and while the seats in use are within the limit,
      the second condition always holds. */
  lemma ReservationHonoured(w: World, user: nat, i: nat, now: int)
    requires Valid(w) && i < |w.invites| && w.invites[i].user == user
    requires w.invites[i].status.Pending? && w.invites[i].expires > now
    ensures w.invites[i].tenant < |w.tenants|
    ensures var t := w.invites[i].tenant;
            && (Decide(w, user, i, true, now).1.Done?
                <==> Available(w.tenants[t]) && Sum(w.members, ActiveMember(t)) < w.tenants[t].limit)
            && (SeatsUsed(w, t, now) <= w.tenants[t].limit ==> Sum(w.members, ActiveMember(t)) < w.tenants[t].limit)
  {
    PendingCounts(w.invites, i, w.invites[i].tenant, now);
    hide Owned; hide ClosedEmpty; hide OnePending; hide Exclusive; hide MembersUnique; hide Sum; hide Joined;
  }

  predicate OwnerRow(m: Membership, user: nat, t: nat) { m.user == user && m.tenant == t && m.role.Owner? }

  /** Invitations carry the role MEMBER, but accepting one yields an active owner if and only if the person's
      old membership row was an owner's. */
  lemma AcceptYieldsOwnerExactly(w: World, user: nat, i: nat, now: int)
    requires Valid(w) && i < |w.invites| && w.invites[i].status.Pending? && Decide(w, user, i, true, now).1.Done?
    ensures var w', t := Decide(w, user, i, true, now).0, w.invites[i].tenant;
            var row := Find(w'.members, ActiveRowOf(user, t));
            && row.Some?
            && (w'.members[row.value].role.Owner?
                <==> exists k :: 0 <= k < |w.members| && OwnerRow(w.members[k], user, t))
  {
    var w', t := Decide(w, user, i, true, now).0, w.invites[i].tenant;
    NoneFor(w.members, user, t);
    NoneActive(w'.members, user, t);
    var old', row := Find(w.members, RowOf(user, t)), Find(w'.members, ActiveRowOf(user, t));
    hide Find; hide Sum; hide Owned; hide ClosedEmpty; hide OnePending; hide Exclusive;
    assert w'.members == Joined(w.members, user, t);
    var k := if old'.Some? then old'.value else |w.members|;
    assert w'.members[k].user == user && w'.members[k].tenant == t && w'.members[k].status.Active?;
    assert row.Some? && row.value == k;
  }

  /** Creating a workspace uses one of the account's slots and stays within its limit. */
  lemma CreateUsesSlot(w: World, user: nat, accountLimit: nat, slugTaken: bool, seatLimit: nat)
    requires Valid(w)
    ensures var (w', reply) := CreateTenant(w, user, accountLimit, slugTaken, seatLimit);
            var was, now := Sum(w.members, OwnedBy(user, w.tenants)), Sum(w'.members, OwnedBy(user, w'.tenants));
            reply.Done? ==> now == was + 1 <= accountLimit
  {
    var w' := CreateTenant(w, user, accountLimit, slugTaken, seatLimit).0;
    var row := Membership(user, |w.tenants|, Owner, Active);
    var tenants := w.tenants + [Tenant(true, false, seatLimit)];
    SumAppend(w.members, row, OwnedBy(user, tenants));
    SumSame(w.members, w.members, OwnedBy(user, w.tenants), OwnedBy(user, tenants));
    hide Sum; hide Owned; hide ClosedEmpty; hide OnePending; hide Exclusive; hide MembersUnique;
  }

  /** So does receiving one by transfer. */
  lemma TransferUsesSlot(w: World, actor: nat, k: nat, accountLimit: nat)
    requires Valid(w) && k < |w.members|
    ensures var (w', reply) := Transfer(w, actor, k, accountLimit);
            var user := w.members[k].user;
            var was, now := Sum(w.members, OwnedBy(user, w.tenants)), Sum(w'.members, OwnedBy(user, w'.tenants));
            reply.Done? ==> now <= was + 1 <= accountLimit
  {
    hide Sum;
    if Transfer(w, actor, k, accountLimit).1.Done? {
      var target := w.members[k];
      var c := Find(w.members, ActiveRowOf(actor, target.tenant)).value;
      NoneActive(w.members, actor, target.tenant);
      hide Find; hide Valid;
      var members := w.members[k := target.(role := Owner)];
      SumUpdate(w.members, k, target.(role := Owner), OwnedBy(target.user, w.tenants));
      SumUpdate(members, c, w.members[c].(role := Member), OwnedBy(target.user, w.tenants));
    }
  }
}
