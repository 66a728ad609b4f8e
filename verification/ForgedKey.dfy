/** Why the safety theorem asks owners not to send keys with the capture prefix: the payment endpoint
    accepts any key, and one that names an open checkout swallows that checkout's capture. */
module ForgedKey {
  import opened Tables
  import opened Calendar
  import opened Ledger
  import opened Checkout

  const DAY := Date(2025, 2, 1)

  function Setup(): seq<Move> {
    [LedgerOp(GenerateOp(0, 0, 0, 2025, 1, 0, SUPPORTED_CURRENCY, 100, [], 0)), LedgerOp(PublishOp(0)),
        StartOp(0, 0, 1800)]
  }

  /** The owner records 100 in cash under the key "online:<attempt 0>"; then the real capture arrives; then
      the cash payment is voided. */
  function Forgery(): seq<Move> {
    [LedgerOp(PayOp(0, 0, 100, DAY, DAY, Cash, NoReference, OnlineKey(0))),
     DeliverOp(0, ProviderPayment("cf1", Success, 100, SUPPORTED_CURRENCY), DAY),
     LedgerOp(VoidOp(0))]
  }

  lemma After3(st: State, ops: seq<Move>)
    requires |ops| == 3
    ensures After(st, ops) == Next(Next(Next(st, ops[0]).0, ops[1]).0, ops[2]).0
  {
    assert ops == ops[..2] + [ops[2]] && ops[..2] == ops[..1] + [ops[1]] && ops[..1] == [ops[0]];
    AfterConcat(st, ops[..2], [ops[2]]);
    AfterConcat(st, ops[..1], [ops[1]]);
    AfterOne(st, ops[0]);
    AfterOne(Next(st, ops[0]).0, ops[1]);
    AfterOne(Next(Next(st, ops[0]).0, ops[1]).0, ops[2]);
    hide Next;
  }

  lemma RentIsGenerated()
    ensures var st1 := Next(INITIAL, Setup()[0]).0;
            && st1.attempts == [] && st1.book.payments == [] && |st1.book.bills| == 1
            && var b := st1.book.bills[0];
               b.tenant == 0 && b.status.Draft? && b.total == 100 && b.paid == 0 && b.currency == SUPPORTED_CURRENCY
  {
    assert GeneratedLines(100, [], 0) == [Line(Rent, 100, None)];
  }

  lemma SetupState()
    ensures var st := After(INITIAL, Setup());
            && |st.book.bills| == 1 && st.book.payments == [] && |st.attempts| == 1
            && var b, row := st.book.bills[0], st.attempts[0];
               && b.tenant == 0 && b.status.Published? && b.total == 100 && b.paid == 0
               && row == NewAttempt(0, 100, SUPPORTED_CURRENCY, 0, 1800)
  {
    After3(INITIAL, Setup());
    RentIsGenerated();
    hide After; hide Generate; hide Sum;
    var st1 := Next(INITIAL, Setup()[0]).0;
    var st2 := Next(st1, Setup()[1]).0;
    assert st2.book.bills[0].status.Published? && st2.attempts == [];
  }

  const CASH := Payment(0, 0, 100, DAY, Cash, Completed, NoReference, OnlineKey(0))

  lemma CashIsCredited(st: State)
    requires |st.book.bills| == 1 && st.book.payments == []
    requires var b := st.book.bills[0]; b.tenant == 0 && b.status.Published? && b.total == 100 && b.paid == 0
    ensures var st1 := Next(st, Forgery()[0]).0;
            && st1.attempts == st.attempts && st1.book.payments == [CASH]
            && |st1.book.bills| == 1 && st1.book.bills[0] == st.book.bills[0].(paid := 100, status := Paid)
  {
    hide Sum;
    assert Find(st.book.payments, HasKey(0, OnlineKey(0))).None?;
  }

  lemma CaptureIsSwallowed(st: State)
    requires |st.book.bills| == 1 && st.book.bills[0].tenant == 0 && st.book.payments == [CASH]
    requires st.attempts == [NewAttempt(0, 100, SUPPORTED_CURRENCY, 0, 1800)]
    ensures var st2 := Next(st, Forgery()[1]).0;
            && st2.book == st.book && |st2.attempts| == 1
            && st2.attempts[0].status.Succeeded? && st2.attempts[0].payment == Some(0)
  {
    hide Sum;
    assert HasKey(0, OnlineKey(0))(st.book.payments[0]);
  }

  lemma CashIsVoided(st: State)
    requires |st.book.bills| == 1 && st.book.payments == [CASH]
    requires var b := st.book.bills[0]; b.status.Paid? && b.total == 100 && b.paid == 100
    ensures var st3 := Next(st, Forgery()[2]).0;
            && st3.attempts == st.attempts && |st3.book.payments| == 1
            && st3.book.payments[0] == CASH.(status := Voided)
            && |st3.book.bills| == 1 && st3.book.bills[0].paid == 0 && st3.book.bills[0].status.Published?
  {
  }

  /** The attempt ends SUCCEEDED but linked to a voided cash payment, the bill shows nothing paid, and the
      captured money is recorded nowhere: the settlement guarantee fails without the assumption on keys. */
  lemma ForgedKeySwallowsCapture()
    ensures var st := After(After(INITIAL, Setup()), Forgery());
            && |st.attempts| == 1 && st.attempts[0].status.Succeeded? && st.attempts[0].payment == Some(0)
            && |st.book.payments| == 1 && st.book.payments[0].means.Cash? && st.book.payments[0].status.Voided?
            && |st.book.bills| == 1 && st.book.bills[0].paid == 0 && st.book.bills[0].status.Published?
    ensures Setup() != [] && !Honest(Forgery()[0])
  {
    hide Next; hide NewAttempt;
    SetupState();
    var st := After(INITIAL, Setup());
    After3(st, Forgery());
    hide After;
    CashIsCredited(st);
    var st1 := Next(st, Forgery()[0]).0;
    CaptureIsSwallowed(st1);
    CashIsVoided(Next(st1, Forgery()[1]).0);
  }
}
