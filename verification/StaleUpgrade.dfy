/** Why the frozen-row theorem asks something of events too: an activation that matches nothing to lock reads the
    workspace's row, a cancellation commits, and the paid upgrade is saved onto the canceled row. */
module StaleUpgrade {
  import opened Tables
  import opened Subscriptions
  import opened SubscriptionSafety
  import opened StaleOverride

  const FAILED := Notice("f", PaymentTrouble, Some("sub_1"), None, None, None)
  const UPGRADED := Notice("b", Activated, Some("sub_2"), None, None, None)
  const UPGRADE := Checkout(0, PRO, Some("sub_2"), false, STALE_CHECKOUT)
  const LAPSED := CREATED.(status := PastDue)

  /** A workspace subscribes and a payment fails; the old mandate is dead at the provider, so a checkout for the
      higher plan is raised; the new mandate's activation and the old one's cancellation are delivered. */
  function UpgradeRaised(): (ops: seq<Op>)
    ensures |ops| == 8
  {
    [CheckoutOp(0, BASIC, Some("sub_1"), false, 0), RecordOp(STARTED, 0), ProcessOp(0, 0),
     RecordOp(FAILED, 1), ProcessOp(1, 1), CheckoutOp(0, PRO, Some("sub_2"), true, STALE_CHECKOUT),
     RecordOp(UPGRADED, STALE_CHECKOUT), RecordOp(ENDED, STALE_CHECKOUT)]
  }

  const DELIVERED :=
    Db([LAPSED], [UPGRADE], [Event(STARTED, 0, true), Event(FAILED, 1, true),
                             Event(UPGRADED, STALE_CHECKOUT, false), Event(ENDED, STALE_CHECKOUT, false)])

  lemma StoresFailure()
    ensures Step(Db([CREATED], [CHECKOUT], [Event(STARTED, 0, true)]), RecordOp(FAILED, 1))
            == Db([CREATED], [CHECKOUT], [Event(STARTED, 0, true), Event(FAILED, 1, false)])
  {
    assert !HasEventKey("f")([Event(STARTED, 0, true)][0]);
  }

  lemma PaymentFails()
    ensures Step(Db([CREATED], [CHECKOUT], [Event(STARTED, 0, true), Event(FAILED, 1, false)]), ProcessOp(1, 1))
            == Db([LAPSED], [CHECKOUT], [Event(STARTED, 0, true), Event(FAILED, 1, true)])
  {
    assert HasExt("sub_1")([CREATED][0]);
  }

  lemma ReplacesCheckout(events: seq<Event>)
    ensures Step(Db([LAPSED], [CHECKOUT], events), CheckoutOp(0, PRO, Some("sub_2"), true, STALE_CHECKOUT))
            == Db([LAPSED], [UPGRADE], events)
  {
    assert OwnedBy(0)([CHECKOUT][0]) && !ForExt("sub_2")([CHECKOUT][0]);
  }

  lemma Stores(db: Db, n: Notice, now: int)
    requires forall i :: 0 <= i < |db.events| ==> db.events[i].notice.key != n.key
    ensures Step(db, RecordOp(n, now)) == db.(events := db.events + [Event(n, now, false)])
  {
    assert forall i :: 0 <= i < |db.events| ==> !HasEventKey(n.key)(db.events[i]);
  }

  lemma UpgradeReady()
    ensures Run(EMPTY, UpgradeRaised()) == DELIVERED
  {
    hide UpgradeRaised; hide Step;
    var ops := UpgradeRaised();
    assert Run(EMPTY, ops[..0]) == EMPTY && ops[..8] == ops;
    RunStep(EMPTY, ops, 0);
    RunStep(EMPTY, ops, 1);
    RunStep(EMPTY, ops, 2);
    RunStep(EMPTY, ops, 3);
    RunStep(EMPTY, ops, 4);
    RunStep(EMPTY, ops, 5);
    RunStep(EMPTY, ops, 6);
    RunStep(EMPTY, ops, 7);
    hide Run;
    FirstOps();
    RaisesCheckout();
    StoresActivation();
    CreatesRow();
    StoresFailure();
    PaymentFails();
    ReplacesCheckout([Event(STARTED, 0, true), Event(FAILED, 1, true)]);
    var paid := Db([LAPSED], [UPGRADE], [Event(STARTED, 0, true), Event(FAILED, 1, true)]);
    Stores(paid, UPGRADED, STALE_CHECKOUT);
    Stores(paid.(events := paid.events + [Event(UPGRADED, STALE_CHECKOUT, false)]), ENDED, STALE_CHECKOUT);
  }

  lemma FirstOps()
    ensures var ops := UpgradeRaised();
            && ops[0] == CanceledMeanwhile()[0] && ops[1] == CanceledMeanwhile()[1] && ops[2] == CanceledMeanwhile()[2]
            && ops[3] == RecordOp(FAILED, 1) && ops[4] == ProcessOp(1, 1)
            && ops[5] == CheckoutOp(0, PRO, Some("sub_2"), true, STALE_CHECKOUT)
            && ops[6] == RecordOp(UPGRADED, STALE_CHECKOUT) && ops[7] == RecordOp(ENDED, STALE_CHECKOUT)
  {
  }

  lemma CancellationCommits()
    ensures Step(DELIVERED, ProcessOp(3, STALE_CHECKOUT))
            == DELIVERED.(subs := [LAPSED.(status := Canceled)],
                events := DELIVERED.events[3 := Event(ENDED, STALE_CHECKOUT, true)])
  {
    assert HasExt("sub_1")([LAPSED][0]);
  }

  /** The frozen row fails without any override: the upgrade had read PAST_DUE, the row has been CANCELED since,
      and plan, provider id and ACTIVE are saved onto it. */
  lemma StaleUpgradeRevivesCanceledRow()
    ensures var read := Run(EMPTY, UpgradeRaised());
            var canceled := Step(read, ProcessOp(3, STALE_CHECKOUT));
            var upgrade := UnlockedOp(2, 0, LAPSED, Some(UPGRADE));
            && read.subs == [LAPSED] && LAPSED.status.PastDue? && read.checkouts == [UPGRADE]
            && SubFor(read.subs, UPGRADED.ext).None?
            && canceled.subs == [LAPSED.(status := Canceled)]
            && Step(canceled, upgrade).subs == [LAPSED.(status := Active, plan := PRO, ext := Some("sub_2"))]
  {
    UpgradeReady();
    CancellationCommits();
    hide Run; hide UpgradeRaised;
    NoSubHas([LAPSED], "sub_2");
    hide SubFor;
  }

  /** Nor does the mark protect it: an unlocked failed payment, however old, takes an ACTIVE read to PAST_DUE and
      leaves the mark where it is. */
  lemma UnlockedIsNeverStale(db: Db, i: nat, r: nat, read: Sub)
    requires i < |db.events| && !db.events[i].processed && db.events[i].notice.kind.PaymentTrouble?
    requires r < |db.subs| && ReadAs(db.subs[r], read, db.events[i].notice, None) && read.status.Active?
    ensures Step(db, UnlockedOp(i, r, read, None)).subs == db.subs[r := db.subs[r].(status := PastDue)]
  {
  }
}
