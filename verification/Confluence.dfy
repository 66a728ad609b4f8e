/** Delivery order does not matter for one order: webhooks, sweeps and expiry in any order and any
    number lead where a single delivery of the capture leads. */
module Confluence {
  import opened Tables
  import opened Calendar
  import opened Ledger
  import opened LedgerInvariant
  import opened Checkout
  import opened Settlement
  import opened SettlementHistory

  /** Events of one order that report at most the one capture p. */
  ghost predicate OnOrder(op: Move, a: nat, p: ProviderPayment) {
    match op
    case DeliverOp(x, q, _) => x == a && (q == p || !q.status.Success?)
    case PollOp(x, _, _) => x == a
    case ActivateOp(x, _) => x == a
    case RejectOp(x) => x == a
    case GiveUpOp(x, _) => x == a
    case _ => false
  }

  predicate Delivers(op: Move, p: ProviderPayment) { op.DeliverOp? && op.payment == p }

  /** What resident and owner can see: the attempt's fate, the linked payment, every bill, how many payments exist. */
  datatype View = View(status: Status, payment: Option<nat>, providerPaymentId: string, bills: seq<Bill>, payments: nat)

  function ViewOf(st: State, a: nat): View
    requires a < |st.attempts|
  {
    var row := st.attempts[a];
    View(row.status, row.payment, row.providerPaymentId, st.book.bills, |st.book.payments|)
  }

  /** Two states that differ only in how the still unsettled attempt a got along so far. */
  ghost predicate SamePending(st: State, st': State, a: nat) {
    && a < |st.attempts| && st'.book == st.book && |st'.attempts| == |st.attempts|
    && (forall j :: 0 <= j < |st.attempts| && j != a ==> st'.attempts[j] == st.attempts[j])
    && var row, row' := st.attempts[a], st'.attempts[a];
       Unsettled(row.status) && Unsettled(row'.status)
       && row'.bill == row.bill && row'.amount == row.amount && row'.currency == row.currency
  }

  /** The ledger's view of a credit does not depend on the day it is dated. */
  lemma CreditIgnoresDate(book: Book, i: nat, p: Payment, q: Payment)
    requires i < |book.bills| && q == p.(date := q.date)
    ensures Credit(book, i, p).bills == Credit(book, i, q).bills
    ensures |Credit(book, i, p).payments| == |Credit(book, i, q).payments|
    ensures Creditable(book, i, p) <==> Creditable(book, i, q)
  {
  }

  lemma DeliverIgnoresHistory(st: State, st': State, a: nat, p: ProviderPayment, today: Date, later: Date)
    requires Safe(st) && Safe(st') && SamePending(st, st', a) && p.status.Success? && Unclaimed(st, a, p.id)
    ensures |Deliver(st, a, p, today).0.attempts| == |st.attempts| == |Deliver(st', a, p, later).0.attempts|
    ensures ViewOf(Deliver(st', a, p, later).0, a) == ViewOf(Deliver(st, a, p, today).0, a)
  {
    hide Safe; hide Deliver;
    UnsettledRow(st, a);
    UnsettledRow(st', a);
    CaptureOutcome(st, a, p, today);
    CaptureOutcome(st', a, p, later);
    assert Unclaimed(st', a, p.id);
    CreditIgnoresDate(st.book, st.attempts[a].bill, CapturePayment(st, a, p.id, today),
        CapturePayment(st', a, p.id, later));
    hide Creditable; hide Credit; hide Unclaimed;
  }

  /** A capture that has been decided. */
  ghost predicate Decided(st: State, a: nat, p: ProviderPayment)
    requires a < |st.attempts|
  {
    var row := st.attempts[a];
    (row.status.Succeeded? || row.status.Unapplied?) && row.providerPaymentId == p.id
  }

  lemma DeliverDecides(st: State, a: nat, p: ProviderPayment, today: Date)
    requires Safe(st) && a < |st.attempts| && Unsettled(st.attempts[a].status) && p.status.Success?
    requires Unclaimed(st, a, p.id)
    ensures a < |Deliver(st, a, p, today).0.attempts| && Decided(Deliver(st, a, p, today).0, a, p)
  {
    hide Safe; hide Deliver;
    CaptureOutcome(st, a, p, today);
    hide Creditable; hide Credit; hide Unclaimed;
  }

  lemma DecidedStays(st: State, op: Move, a: nat, p: ProviderPayment)
    requires a < |st.attempts| && Decided(st, a, p) && OnOrder(op, a, p)
    ensures Next(st, op).0 == st
  {
    hide RecordCapture; hide Find;
  }

  lemma PendingStays(st: State, st': State, op: Move, a: nat, p: ProviderPayment)
    requires SamePending(st, st', a) && OnOrder(op, a, p) && p.status.Success? && !Delivers(op, p)
    ensures SamePending(st, Next(st', op).0, a)
  {
    hide RecordCapture; hide Find;
  }

  lemma {:induction false} OrderKeepsSafe(st: State, ops: seq<Move>, a: nat, p: ProviderPayment)
    requires Safe(st) && forall k :: 0 <= k < |ops| ==> OnOrder(ops[k], a, p)
    ensures Safe(After(st, ops))
  {
    hide Safe; hide Next;
    if ops != [] {
      OrderKeepsSafe(st, ops[..|ops| - 1], a, p);
      StepIsSafe(After(st, ops[..|ops| - 1]), ops[|ops| - 1]);
    }
  }

  function Seen(ops: seq<Move>, p: ProviderPayment): bool {
    ops != [] && (Seen(ops[..|ops| - 1], p) || Delivers(ops[|ops| - 1], p))
  }

  /** Until the capture is first delivered, nothing that matters has happened; from then on nothing more does. */
  ghost predicate Tracks(st: State, now: State, seen: bool, a: nat, p: ProviderPayment, target: View) {
    && a < |now.attempts|
    && (!seen ==> SamePending(st, now, a))
    && (seen ==> Decided(now, a, p) && ViewOf(now, a) == target)
  }

  lemma TrackStep(st: State, now: State, seen: bool, op: Move, a: nat, p: ProviderPayment, today: Date)
    requires Safe(st) && Safe(now) && a < |st.attempts| && Unsettled(st.attempts[a].status)
    requires p.status.Success? && Unclaimed(st, a, p.id) && OnOrder(op, a, p)
    requires a < |Deliver(st, a, p, today).0.attempts|
    requires Tracks(st, now, seen, a, p, ViewOf(Deliver(st, a, p, today).0, a))
    ensures Tracks(st, Next(now, op).0, seen || Delivers(op, p), a, p, ViewOf(Deliver(st, a, p, today).0, a))
  {
    hide Safe; hide SamePending; hide OnOrder; hide Unclaimed; hide Deliver;
    if seen {
      DecidedStays(now, op, a, p);
      hide Next;
    } else if Delivers(op, p) {
      OnOrderTarget(op, a, p);
      PendingRow(st, now, a);
      UnclaimedSame(st, now, a, p.id);
      DeliverDecides(now, a, p, op.today);
      DeliverIgnoresHistory(st, now, a, p, today, op.today);
    } else {
      PendingStays(st, now, op, a, p);
      PendingRow(st, Next(now, op).0, a);
      hide Next;
    }
  }

  lemma {:induction false} OrderInvariant(st: State, ops: seq<Move>, a: nat, p: ProviderPayment, today: Date)
    requires Safe(st) && a < |st.attempts| && Unsettled(st.attempts[a].status)
    requires p.status.Success? && Unclaimed(st, a, p.id)
    requires forall k :: 0 <= k < |ops| ==> OnOrder(ops[k], a, p)
    ensures a < |Deliver(st, a, p, today).0.attempts|
    ensures Tracks(st, After(st, ops), Seen(ops, p), a, p, ViewOf(Deliver(st, a, p, today).0, a))
  {
    DeliverDecides(st, a, p, today);
    hide Safe; hide Deliver; hide Unclaimed; hide OnOrder;
    if ops != [] {
      hide Tracks; hide Next;
      OrderInvariant(st, ops[..|ops| - 1], a, p, today);
      OrderKeepsSafe(st, ops[..|ops| - 1], a, p);
      TrackStep(st, After(st, ops[..|ops| - 1]), Seen(ops[..|ops| - 1], p), ops[|ops| - 1], a, p, today);
    }
  }

  lemma {:induction false} SeenSomewhere(ops: seq<Move>, p: ProviderPayment, k: nat)
    requires k < |ops| && Delivers(ops[k], p)
    ensures Seen(ops, p)
  {
    if k < |ops| - 1 { SeenSomewhere(ops[..|ops| - 1], p, k); }
  }

  lemma OnOrderTarget(op: Move, a: nat, p: ProviderPayment)
    requires OnOrder(op, a, p) && op.DeliverOp?
    ensures op.attempt == a
  {
  }

  lemma PendingRow(st: State, st': State, a: nat)
    requires SamePending(st, st', a)
    ensures a < |st'.attempts| && Unsettled(st'.attempts[a].status)
  {
  }

  lemma UnclaimedSame(st: State, st': State, a: nat, id: string)
    requires SamePending(st, st', a) && Unclaimed(st, a, id)
    ensures Unclaimed(st', a, id)
  {
  }

  /** Delivery confluence: from any safe state in which the order is still unsettled and its capture belongs to
      no other attempt, every sequence of its provider events that contains the capture at least once, however
      often and in whatever order with failures, polls, expiry and order answers, ends with the same attempt
      status, linked payment and bills as delivering the capture once. */
  lemma DeliveryOrderIrrelevant(st: State, ops: seq<Move>, a: nat, p: ProviderPayment, today: Date)
    requires Safe(st) && a < |st.attempts| && Unsettled(st.attempts[a].status)
    requires p.status.Success? && Unclaimed(st, a, p.id)
    requires forall k :: 0 <= k < |ops| ==> OnOrder(ops[k], a, p)
    requires exists k :: 0 <= k < |ops| && Delivers(ops[k], p)
    ensures a < |After(st, ops).attempts| && a < |Deliver(st, a, p, today).0.attempts|
    ensures ViewOf(After(st, ops), a) == ViewOf(Deliver(st, a, p, today).0, a)
  {
    hide Safe; hide Deliver; hide Unclaimed; hide OnOrder;
    OrderInvariant(st, ops, a, p, today);
    var k: nat :| k < |ops| && Delivers(ops[k], p);
    SeenSomewhere(ops, p, k);
  }
}
