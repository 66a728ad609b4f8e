/** Two reachable runs behind what the documentation does not say: a demotion can overbook a workspace, and a
    resident invitation can restore an owner. */
module WorkspaceWitness {
  import opened Tables
  import opened Workspaces
  import opened WorkspaceSafety
  import opened Seats

  const ROOT := User(true, true, true, false)
  const PERSON := User(false, false, true, false)
  const START := World([ROOT], [], [], [])
  const PEOPLE := [ROOT, PERSON, PERSON]

  /** One workspace with a single resident seat. */
  const FLAT := Tenant(true, false, 1)
  const FOUNDER := Membership(0, 0, Owner, Active)
  const RESIDENT := Membership(1, 0, Member, Active)

  function Asked(user: nat, status: InvitationStatus): Invitation { Invitation(0, user, status, INVITATION_EXPIRY) }

  /** Two people sign up, the root founds a workspace, invites the first, who accepts and is promoted. */
  function TwoOwners(): (ops: seq<(Op, int)>)
    ensures |ops| == 6
  {
    [(SignUpOp, 0), (SignUpOp, 0), (CreateTenantOp(0, 1, false, 1), 0), (InviteOp(0, 1), 0), (DecideOp(1, 0, true), 0),
     (SetRoleOp(1, Owner), 0)]
  }

  const SHARED := World(PEOPLE, [FLAT], [FOUNDER, RESIDENT.(role := Owner)], [Asked(1, Accepted)])

  lemma SumTwo<T>(a: T, b: T, f: T -> int)
    ensures Sum([a], f) == f(a) && Sum([a, b], f) == f(a) + f(b)
  {
    assert [a, b][..1] == [a] && [a][..0] == [];
  }

  lemma NoneFound<T>(rows: seq<T>, p: T -> bool)
    requires forall i :: 0 <= i < |rows| ==> !p(rows[i])
    ensures Find(rows, p).None?
  {
  }

  lemma AfterStep(w: World, ops: seq<(Op, int)>, k: nat)
    requires k < |ops|
    ensures Run(w, ops[..k + 1]) == Step(Run(w, ops[..k]), ops[k].0, ops[k].1)
  {
    assert ops[..k + 1][..k] == ops[..k];
    hide Step;
  }

  lemma Founds()
    ensures Step(World(PEOPLE, [], [], []), CreateTenantOp(0, 1, false, 1), 0) == World(PEOPLE, [FLAT], [FOUNDER], [])
  {
  }

  lemma InvitesFirst()
    ensures Step(World(PEOPLE, [FLAT], [FOUNDER], []), InviteOp(0, 1), 0)
            == World(PEOPLE, [FLAT], [FOUNDER], [Asked(1, Pending)])
  {
    NoneFound([FOUNDER], ActiveRowOf(1, 0));
    SumTwo(FOUNDER, FOUNDER, ActiveMember(0));
    hide Find;
    assert UpdateAll([], ExpireIn(OfTenant(0), 0)) == [];
    NoneFound([], PendingFor(1, 0));
  }

  lemma FirstAccepts()
    ensures Step(World(PEOPLE, [FLAT], [FOUNDER], [Asked(1, Pending)]), DecideOp(1, 0, true), 0)
            == World(PEOPLE, [FLAT], [FOUNDER, RESIDENT], [Asked(1, Accepted)])
  {
    NoneFound([FOUNDER], RowOf(1, 0));
    SumTwo(FOUNDER, FOUNDER, ActiveMember(0));
    hide Find; hide Sum;
  }

  lemma Promotes()
    ensures Step(World(PEOPLE, [FLAT], [FOUNDER, RESIDENT], [Asked(1, Accepted)]), SetRoleOp(1, Owner), 0) == SHARED
  {
  }

  lemma SharedReached()
    ensures Run(START, TwoOwners()) == SHARED
  {
    var ops := TwoOwners();
    assert ops[..6] == ops && Run(START, ops[..0]) == START;
    AfterStep(START, ops, 0);
    AfterStep(START, ops, 1);
    AfterStep(START, ops, 2);
    AfterStep(START, ops, 3);
    AfterStep(START, ops, 4);
    AfterStep(START, ops, 5);
    assert Step(Step(START, SignUpOp, 0), SignUpOp, 0) == World(PEOPLE, [], [], []);
    hide Run; hide Step;
    Founds();
    InvitesFirst();
    FirstAccepts();
    Promotes();
  }

  lemma InvitesSecond()
    ensures Step(SHARED, InviteOp(0, 2), 0) == SHARED.(invites := [Asked(1, Accepted), Asked(2, Pending)])
  {
    var rows := SHARED.members;
    NoneFound(rows, ActiveRowOf(2, 0));
    SumTwo(rows[0], rows[1], ActiveMember(0));
    assert UpdateAll(SHARED.invites, ExpireIn(OfTenant(0), 0)) == SHARED.invites;
    NoneFound(SHARED.invites, PendingFor(2, 0));
    SumTwo(Asked(1, Accepted), Asked(1, Accepted), Reserved(0, 0));
    hide Find; hide Sum; hide UpdateAll;
  }

  lemma DemotesFirst(w: World)
    requires w == SHARED.(invites := w.invites)
    ensures Step(w, SetRoleOp(1, Member), 0) == w.(members := [FOUNDER, RESIDENT])
    ensures Valid(w) ==> OtherOwner(w.members, 0, 1)
  {
    assert OwnsTenant(w.members[0], 0);
  }

  /** Reachable overbooking: the only seat is reserved for the second person when the platform demotes the first
      from owner to resident; two seats are then in use out of one. */
  lemma DemotionOverbooks()
    ensures var w := Run(START, TwoOwners() + [(InviteOp(0, 2), 0)]);
            && |w.tenants| == 1 && w.tenants[0].limit == 1 && SeatsUsed(w, 0, 0) == 1
            && Overbooks(w, SetRoleOp(1, Member), 0, 0)
            && SeatsUsed(Step(w, SetRoleOp(1, Member), 0), 0, 0) == 2
  {
    SharedReached();
    var ops := TwoOwners() + [(InviteOp(0, 2), 0)];
    assert ops[..6] == TwoOwners() && ops[..7] == ops;
    AfterStep(START, ops, 6);
    hide Run; hide TwoOwners;
    InvitesSecond();
    var w := Run(START, ops);
    DemotesFirst(w);
    hide Step; hide Find;
    SumTwo(FOUNDER, RESIDENT.(role := Owner), ActiveMember(0));
    SumTwo(FOUNDER, RESIDENT, ActiveMember(0));
    SumTwo(Asked(1, Accepted), Asked(2, Pending), Reserved(0, 0));
    hide Sum;
    assert OwnsTenant(w.members[0], 0) && OwnsTenant(w.members[1], 0);
  }

  const DEPARTED := SHARED.(members := [FOUNDER.(status := Left), RESIDENT.(role := Owner)])

  lemma FounderLeaves()
    ensures Step(SHARED, LeaveOp(0, 0), 0) == DEPARTED
  {
    assert ActiveRowOf(0, 0)(SHARED.members[0]);
    assert OwnsTenant(SHARED.members[1], 0);
  }

  lemma InvitesFounder()
    ensures Step(DEPARTED, InviteOp(0, 0), 0) == DEPARTED.(invites := [Asked(1, Accepted), Asked(0, Pending)])
  {
    var rows := DEPARTED.members;
    NoneFound(rows, ActiveRowOf(0, 0));
    SumTwo(rows[0], rows[1], ActiveMember(0));
    assert UpdateAll(DEPARTED.invites, ExpireIn(OfTenant(0), 0)) == DEPARTED.invites;
    NoneFound(DEPARTED.invites, PendingFor(0, 0));
    SumTwo(Asked(1, Accepted), Asked(1, Accepted), Reserved(0, 0));
    hide Find; hide Sum; hide UpdateAll;
  }

  lemma FounderAccepts()
    ensures Step(DEPARTED.(invites := [Asked(1, Accepted), Asked(0, Pending)]), DecideOp(0, 1, true), 0)
            == SHARED.(invites := [Asked(1, Accepted), Asked(0, Accepted)])
  {
    var rows := DEPARTED.members;
    assert RowOf(0, 0)(rows[0]);
    assert Find(rows, RowOf(0, 0)) == Some(0);
    SumTwo(rows[0], rows[1], ActiveMember(0));
    hide Find; hide Sum;
  }

  /** Reachable restoration: the founder leaves, is invited as a resident like anyone, accepts, and owns again. */
  lemma InvitationRestoresOwner()
    ensures var left := Run(START, TwoOwners() + [(LeaveOp(0, 0), 0)]);
            var back := Run(START, TwoOwners() + [(LeaveOp(0, 0), 0), (InviteOp(0, 0), 0), (DecideOp(0, 1, true), 0)]);
            && |left.members| == |back.members| == 2
            && left.members[0] == Membership(0, 0, Owner, Left) && OwnsTenant(back.members[0], 0)
  {
    SharedReached();
    var ops := TwoOwners() + [(LeaveOp(0, 0), 0), (InviteOp(0, 0), 0), (DecideOp(0, 1, true), 0)];
    assert ops[..6] == TwoOwners() && ops[..7] == TwoOwners() + [(LeaveOp(0, 0), 0)] && ops[..9] == ops;
    AfterStep(START, ops, 6);
    AfterStep(START, ops, 7);
    AfterStep(START, ops, 8);
    hide Run; hide TwoOwners;
    FounderLeaves();
    InvitesFounder();
    FounderAccepts();
    hide Step;
  }
}
