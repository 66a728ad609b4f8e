/** A reachable run in which an expired checkout settles. */
module LateCapture {
  import opened Tables
  import opened Calendar
  import opened Ledger
  import opened Checkout
  import opened Settlement
  import opened SettlementHistory
  import opened ForgedKey

  const CAPTURE := ProviderPayment("cf1", Success, 100, SUPPORTED_CURRENCY)

  function Lapsed(): seq<Move> { Setup() + [PollOp(0, [], 1800)] }

  lemma PollLapses(st: State)
    requires st.attempts == [NewAttempt(0, 100, SUPPORTED_CURRENCY, 0, 1800)]
    ensures Next(st, PollOp(0, [], 1800)).0
            == st.(attempts := [NewAttempt(0, 100, SUPPORTED_CURRENCY, 0, 1800).(status := Expired)])
  {
  }

  /** Half an hour after a bill of 100 was published and its checkout started, nobody has paid. */
  lemma LapsedState()
    ensures var st := After(INITIAL, Lapsed());
            && |st.book.bills| == 1 && st.book.payments == []
            && st.attempts == [NewAttempt(0, 100, SUPPORTED_CURRENCY, 0, 1800).(status := Expired)]
            && var b := st.book.bills[0];
               b.tenant == 0 && b.status.Published? && b.total == 100 && b.paid == 0
  {
    SetupState();
    AfterConcat(INITIAL, Setup(), [PollOp(0, [], 1800)]);
    AfterOne(After(INITIAL, Setup()), PollOp(0, [], 1800));
    hide After; hide Setup; hide Next; hide NewAttempt;
    PollLapses(After(INITIAL, Setup()));
  }

  lemma LapsedIsSafe()
    ensures Safe(After(INITIAL, Lapsed()))
  {
    hide Safe; hide After;
    RunsAreSafe(Lapsed());
  }

  /** The capture of the lapsed checkout arrives after all: the attempt goes from EXPIRED to SUCCEEDED and the
      bill is paid. */
  lemma ExpiredCheckoutSettles()
    ensures var expired, paid := After(INITIAL, Lapsed()), After(INITIAL, Lapsed() + [DeliverOp(0, CAPTURE, DAY)]);
            && |expired.attempts| == 1 && expired.attempts[0].status.Expired?
            && |paid.attempts| == 1 && paid.attempts[0].status.Succeeded?
            && |paid.book.bills| == 1 && paid.book.bills[0].paid == 100
  {
    LapsedState();
    LapsedIsSafe();
    var expired := After(INITIAL, Lapsed());
    AfterConcat(INITIAL, Lapsed(), [DeliverOp(0, CAPTURE, DAY)]);
    AfterOne(expired, DeliverOp(0, CAPTURE, DAY));
    hide After; hide Lapsed; hide Safe; hide Deliver;
    assert Find(expired.book.payments, HasReference(0, CashfreeReference("cf1"))).None?;
    CaptureCreditedExactly(expired, 0, CAPTURE, DAY);
    hide Find;
  }
}
