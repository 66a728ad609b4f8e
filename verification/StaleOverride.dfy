/** Why the frozen-row theorem asks something of overrides: a request that read a subscription before its
    cancellation still writes to the canceled row. */
module StaleOverride {
  import opened Tables
  import opened Subscriptions
  import opened SubscriptionSafety

  const BASIC := Plan(0, Basic, false)
  const PRO := Plan(1, Pro, false)
  const EMPTY := Db([], [], [])
  const STARTED := Notice("a", Activated, Some("sub_1"), None, None, None)
  const ENDED := Notice("c", Cancelled, Some("sub_1"), None, None, None)

  /** A workspace subscribes, a request reads its ACTIVE row, the cancellation arrives and is processed. */
  function CanceledMeanwhile(): (ops: seq<Op>)
    ensures |ops| == 5
  {
    [CheckoutOp(0, BASIC, Some("sub_1"), false, 0), RecordOp(STARTED, 0), ProcessOp(0, 0), RecordOp(ENDED, 1),
        ProcessOp(1, 1)]
  }

  const CHECKOUT := Checkout(0, BASIC, Some("sub_1"), false, 0)
  const CREATED := Sub(0, BASIC, Active, Some("sub_1"), None, 0, 30 * DAY)

  lemma RaisesCheckout()
    ensures Step(EMPTY, CanceledMeanwhile()[0]) == Db([], [CHECKOUT], [])
  {
  }

  lemma StoresActivation()
    ensures Step(Db([], [CHECKOUT], []), CanceledMeanwhile()[1]) == Db([], [CHECKOUT], [Event(STARTED, 0, false)])
  {
  }

  lemma CreatesRow()
    ensures Step(Db([], [CHECKOUT], [Event(STARTED, 0, false)]), CanceledMeanwhile()[2])
            == Db([CREATED], [CHECKOUT], [Event(STARTED, 0, true)])
  {
    assert ForExt("sub_1")([CHECKOUT][0]);
  }

  lemma StoresCancellation()
    ensures Step(Db([CREATED], [CHECKOUT], [Event(STARTED, 0, true)]), CanceledMeanwhile()[3])
            == Db([CREATED], [CHECKOUT], [Event(STARTED, 0, true), Event(ENDED, 1, false)])
  {
    assert Find([Event(STARTED, 0, true)], HasEventKey("c")).None? by {
      assert !HasEventKey("c")([Event(STARTED, 0, true)][0]);
    }
  }

  lemma CancelsRow()
    ensures Step(Db([CREATED], [CHECKOUT], [Event(STARTED, 0, true), Event(ENDED, 1, false)]), CanceledMeanwhile()[4])
            == Db([CREATED.(status := Canceled)], [CHECKOUT], [Event(STARTED, 0, true), Event(ENDED, 1, true)])
  {
    assert HasExt("sub_1")([CREATED][0]);
  }

  lemma MeanwhileCanceled()
    ensures Run(EMPTY, CanceledMeanwhile()[..3]).subs == [CREATED]
    ensures Run(EMPTY, CanceledMeanwhile()).subs == [CREATED.(status := Canceled)]
  {
    hide CanceledMeanwhile; hide Step;
    var ops := CanceledMeanwhile();
    RunStep(EMPTY, ops, 0);
    RunStep(EMPTY, ops, 1);
    RunStep(EMPTY, ops, 2);
    RunStep(EMPTY, ops, 3);
    RunStep(EMPTY, ops, 4);
    assert Run(EMPTY, ops[..0]) == EMPTY;
    assert ops[..5] == ops;
    hide Run;
    RaisesCheckout();
    StoresActivation();
    CreatesRow();
    StoresCancellation();
    CancelsRow();
  }

  /** The frozen row fails in a reachable run: the request saw ACTIVE, the row has been CANCELED since, and the
      override still moves its status, or its plan. */
  lemma StaleOverrideMovesCanceledRow()
    ensures var read, canceled := Run(EMPTY, CanceledMeanwhile()[..3]), Run(EMPTY, CanceledMeanwhile());
            && |read.subs| == 1 && read.subs[0].status.Active?
            && |canceled.subs| == 1 && canceled.subs[0].status.Canceled?
            && Step(canceled, TransitionOp(0, Active, PastDue)).subs == [CREATED.(status := PastDue)]
            && Step(canceled, ChangePlanOp(0, Active, PRO)).subs == [CREATED.(status := Canceled, plan := PRO)]
  {
    MeanwhileCanceled();
    hide Run; hide CanceledMeanwhile;
  }
}
