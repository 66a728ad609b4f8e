/** Requests of several transactions among others: whatever commits between them, what a checkout request hands out
    and how a refund ends. */
module Interference {
  import opened Tables
  import opened Calendar
  import opened Ledger
  import opened LedgerInvariant
  import opened LedgerHistory
  import opened Checkout
  import opened Settlement
  import opened SettlementHistory
  import opened SettlementPerAttempt
  import opened CheckoutService

  function Due(book: Book, bill: nat): int
    requires bill < |book.bills|
  {
    book.bills[bill].total - book.bills[bill].paid
  }

  // ---------- what stays in any run ----------

  /** The attempt asks for what it asked for, and the bill, once issued, is never a draft again. */
  ghost predicate Stands(st: State, st': State, a: nat, bill: nat)
    requires a < |st.attempts| && bill < |st.book.bills|
  {
    && a < |st'.attempts| && st'.attempts[a].bill == st.attempts[a].bill
    && st'.attempts[a].amount == st.attempts[a].amount
    && bill < |st'.book.bills| && (!st.book.bills[bill].status.Draft? ==> !st'.book.bills[bill].status.Draft?)
  }

  lemma NeverDraftAgain(book: Book, op: Ledger.Op, i: nat)
    requires i < |book.bills| && !book.bills[i].status.Draft?
    ensures i < |Ledger.Step(book, op).0.bills| && !Ledger.Step(book, op).0.bills[i].status.Draft?
  {
    if op.EditOp? && op.bill == i { EditNeverDrafts(book.bills[i], op.edit); }
    hide EditOf; hide Sum; hide GeneratedLines; hide Find;
  }

  lemma EditNeverDrafts(b: Bill, e: Edit)
    requires !b.status.Draft?
    ensures EditOf(b, e).Ok? ==> !EditOf(b, e).bill.status.Draft?
  {
    hide Sum; hide BilledNow;
  }

  lemma BookStands(st: State, op: Move, i: nat)
    requires i < |st.book.bills|
    ensures var book' := Next(st, op).0.book;
            i < |book'.bills| && (!st.book.bills[i].status.Draft? ==> !book'.bills[i].status.Draft?)
  {
    match op
    case LedgerOp(o) =>
      StepContinues(st.book, o);
      if !st.book.bills[i].status.Draft? { NeverDraftAgain(st.book, o, i); }
      hide Ledger.Step;
    case StartOp(bill, now, ttl) => StartKeepsBook(st, bill, now, ttl); hide Start;
    case DeliverOp(a, p, today) => CaptureStands(st, a, p, today, i); hide Deliver;
    case _ => hide Find;
  }

  lemma CaptureStands(st: State, a: nat, p: ProviderPayment, today: Date, i: nat)
    requires i < |st.book.bills|
    ensures var book' := Deliver(st, a, p, today).0.book;
            i < |book'.bills| && (!st.book.bills[i].status.Draft? ==> !book'.bills[i].status.Draft?)
  {
    if a < |st.attempts| && st.attempts[a].bill < |st.book.bills| {
      var o := CaptureOp(st, a, p.id, today);
      StepContinues(st.book, o);
      if !st.book.bills[i].status.Draft? { NeverDraftAgain(st.book, o, i); }
    }
    hide Pay; hide SaveConflicts; hide Continues;
    assert Continues(st.book, st.book) by { ContinuesRefl(st.book); }
  }

  lemma {:induction false} RunStands(st: State, ops: seq<Move>, a: nat, bill: nat)
    requires RequestsSound(st.attempts, st.requested) && a < |st.attempts| && bill < |st.book.bills|
    ensures Stands(st, After(st, ops), a, bill)
  {
    hide Next; hide RequestsSound;
    if ops != [] {
      var n := |ops| - 1;
      RunStands(st, ops[..n], a, bill);
      FewStatusChanges(st, ops[..n], a);
      StepRaisesRank(After(st, ops[..n]), ops[n], a);
      BookStands(After(st, ops[..n]), ops[n], bill);
    }
  }

  lemma {:induction false} RunIsSound(st: State, ops: seq<Move>)
    requires Sound(st)
    ensures Sound(After(st, ops))
  {
    hide Sound; hide Next;
    if ops != [] {
      RunIsSound(st, ops[..|ops| - 1]);
      StepIsSound(After(st, ops[..|ops| - 1]), ops[|ops| - 1]);
    }
  }

  // ---------- start ----------

  /** The attempt `start` commits to is open, for the bill, and asks for what was due at that moment. */
  lemma StartOpens(st: State, bill: nat, now: int, ttl: int)
    requires Sound(st) && Start(st, bill, now, ttl).1.AttemptIs?
    ensures var (ready, outcome) := Start(st, bill, now, ttl);
            && bill < |st.book.bills| && ready.book == st.book && outcome.id < |ready.attempts|
            && IsOpen(st.book.bills[bill].status) && ready.attempts[outcome.id].bill == bill
            && ready.attempts[outcome.id].amount == Due(st.book, bill) > 0
  {
    hide Sound;
    var open := Find(st.attempts, OpenFor(bill));
    if open.Some? && !Reusable(st.attempts[open.value], Due(st.book, bill), now) {
      OnlyOneOpen(st, open.value, bill, st.attempts[open.value].(status := Expired));
    }
    hide Find;
  }

  /** Between the transaction that opens the attempt and the read that hands it out, anything may commit: this
      request's order answer, other requests, webhooks, payments, corrections, cancellations. The attempt still is
      for the bill and for what it owed then; it is what the bill owes at hand-out, and thus safe to pay, if and
      only if it is ACTIVE with a session, the bill has not been cancelled, and as much is due as was. */
  lemma HandedOutExactly(st: State, bill: nat, now: int, ttl: int, between: seq<Move>)
    requires Sound(st) && Start(st, bill, now, ttl).1.AttemptIs?
    ensures var (ready, outcome) := Start(st, bill, now, ttl);
            var a, final := outcome.id, After(ready, between);
            && bill < |st.book.bills| && a < |final.attempts| && bill < |final.book.bills|
            && final.attempts[a].bill == bill && final.attempts[a].amount == Due(st.book, bill) > 0
            && (Payable(final, a, bill) <==>
                  && final.attempts[a].status.Active? && final.attempts[a].session != ""
                  && !final.book.bills[bill].status.Cancelled? && Due(final.book, bill) == Due(st.book, bill))
            && (final.attempts[a].status.Active? ==>
                  forall b :: 0 <= b < |final.attempts| && b != a && final.attempts[b].bill == bill ==>
                    !IsOpenStatus(final.attempts[b].status))
  {
    StartOpens(st, bill, now, ttl);
    StartSound(st, bill, now, ttl);
    var (ready, outcome) := Start(st, bill, now, ttl);
    var a, final := outcome.id, After(ready, between);
    hide Start; hide After;
    RequestsOfSound(ready);
    RunStands(ready, between, a, bill);
    RunIsSound(ready, between);
    AtHandOut(final, a, bill);
    hide Sound; hide RequestsSound;
  }

  lemma RequestsOfSound(st: State)
    requires Sound(st)
    ensures RequestsSound(st.attempts, st.requested)
  {
    hide Valid; hide RequestsSound; hide OneOpenPerBill; hide ProviderIdsUnique; hide RowSound;
  }

  lemma AtHandOut(st: State, a: nat, bill: nat)
    requires Sound(st) && a < |st.attempts| && bill < |st.book.bills| && st.attempts[a].bill == bill
    ensures var b := st.book.bills[bill];
            !b.status.Draft? && !b.status.Cancelled? && Due(st.book, bill) > 0 ==> IsOpen(b.status)
    ensures st.attempts[a].status.Active? ==>
              forall b :: 0 <= b < |st.attempts| && b != a && st.attempts[b].bill == bill ==>
                !IsOpenStatus(st.attempts[b].status)
  {
    BillOfValid(st.book, bill);
    hide Valid; hide TotalsOk; hide ReadingsOk; hide ProviderIdsUnique; hide RequestsSound; hide RowSound;
  }

  // ---------- refund ----------

  /** A successful answer to a refund request of this attempt arrives in the run. */
  ghost predicate Answered(ops: seq<Move>, a: nat) {
    exists k :: 0 <= k < |ops| && ops[k] == FinishRefundOp(a, "SUCCESS")
  }

  /** Once requested, an attempt is in refund for good, and REFUNDED exactly from the first successful answer on. */
  lemma {:induction false} RefundRun(st: State, ops: seq<Move>, a: nat)
    requires RequestsSound(st.attempts, st.requested) && a in st.requested
    ensures var st' := After(st, ops);
            && RequestsSound(st'.attempts, st'.requested) && a in st'.requested && a < |st.attempts| <= |st'.attempts|
            && (st'.attempts[a].status.Refunded? <==> st.attempts[a].status.Refunded? || Answered(ops, a))
            && (st'.attempts[a].status.Refunded? || st'.attempts[a].status.RefundPending?)
  {
    if ops != [] {
      var n := |ops| - 1;
      var w := After(st, ops[..n]);
      RefundRun(st, ops[..n], a);
      AnsweredSplits(ops, a);
      RefundStep(w, ops[n], a);
      StepKeepsRequests(w, ops[n]);
      AttemptsGrow(w, ops[n]);
      hide Next; hide RequestsSound; hide Answered;
      assert After(st, ops) == Next(w, ops[n]).0;
      PendingOrDone(After(st, ops), a);
    }
  }

  lemma PendingOrDone(st: State, a: nat)
    requires RequestsSound(st.attempts, st.requested) && a in st.requested
    ensures a < |st.attempts| && (st.attempts[a].status.Refunded? || st.attempts[a].status.RefundPending?)
  {
  }

  lemma AnsweredSplits(ops: seq<Move>, a: nat)
    requires ops != []
    ensures var n := |ops| - 1; Answered(ops, a) <==> Answered(ops[..n], a) || ops[n] == FinishRefundOp(a, "SUCCESS")
  {
    var n := |ops| - 1;
    if k :| 0 <= k < n && ops[..n][k] == FinishRefundOp(a, "SUCCESS") { assert ops[k] == ops[..n][k]; }
    if k :| 0 <= k < |ops| && ops[k] == FinishRefundOp(a, "SUCCESS") { assert k < n ==> ops[..n][k] == ops[k]; }
  }

  lemma RefundStep(st: State, op: Move, a: nat)
    requires RequestsSound(st.attempts, st.requested) && a in st.requested
    ensures var st' := Next(st, op).0;
            && a < |st.attempts| && a in st'.requested && a < |st'.attempts|
            && (st'.attempts[a].status.Refunded? <==>
                  st.attempts[a].status.Refunded? || op == FinishRefundOp(a, "SUCCESS"))
  {
    match op
    case StartOp(bill, now, ttl) => StartRaises(st, bill, now, ttl, a); SameRequests(st, op); hide Start;
    case DeliverOp(b, p, today) => DeliverRaises(st, b, p, today, a); SameRequests(st, op); hide Deliver;
    case LedgerOp(o) => hide Ledger.Step;
    case _ => hide Find;
  }

  /** A refund among others: the request is accepted exactly for a capture kept for refund; once it is, the attempt
      is REFUNDED at the end if and only if this request's answer or another one in between is a success. */
  lemma RefundExactly(st: State, a: nat, between: seq<Move>, answer: Option<string>)
    requires Sound(st) && a < |st.attempts|
    requires (st.attempts[a].status.Unapplied? || st.attempts[a].status.RefundPending?)
    ensures var asked := Next(st, RequestRefundOp(a)).0;
            var finish := if answer.Some? then [FinishRefundOp(a, answer.value)] else [];
            var final := After(asked, between + finish);
            && a < |asked.attempts| && asked.attempts[a].status.RefundPending? && a < |final.attempts|
            && (final.attempts[a].status.Refunded? <==> answer == Some("SUCCESS") || Answered(between, a))
            && (!final.attempts[a].status.Refunded? ==> final.attempts[a].status.RefundPending?)
  {
    var asked := Next(st, RequestRefundOp(a)).0;
    var finish := if answer.Some? then [FinishRefundOp(a, answer.value)] else [];
    RequestsOfSound(st);
    StepKeepsRequests(st, RequestRefundOp(a));
    RefundRun(asked, between + finish, a);
    if answer.Some? {
      AnsweredSplits(between + finish, a);
      assert (between + finish)[..|between|] == between;
    } else {
      assert between + finish == between;
    }
    hide After; hide RequestsSound; hide Answered;
  }
}
