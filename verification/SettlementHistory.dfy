/** One attempt: its status only moves forward, exactly when it lapses, and exactly when a capture is credited. */
module SettlementHistory {
  import opened Tables
  import opened Calendar
  import opened Ledger
  import opened LedgerInvariant
  import opened Checkout
  import opened Settlement

  // ---------- status only moves forward ----------

  function Rank(s: Status): nat {
    match s
    case Created => 0
    case Active => 1
    case Expired => 2
    case Failed => 2
    case Succeeded => 3
    case Unapplied => 3
    case RefundPending => 4
    case Refunded => 5
  }

  /** Refunds are requested only for captures that were kept for refund. */
  ghost predicate RequestsSound(attempts: seq<Attempt>, requested: set<nat>) {
    forall a :: a in requested ==> a < |attempts| && (attempts[a].status.RefundPending? || attempts[a].status.Refunded?)
  }

  /** Every write to a status raises its rank, except the repeated REFUND_PENDING; what the attempt is for never
      changes. */
  lemma StepRaisesRank(st: State, op: Move, a: nat)
    requires RequestsSound(st.attempts, st.requested) && a < |st.attempts|
    ensures var st' := Next(st, op).0;
            && |st'.attempts| >= |st.attempts|
            && var row, row' := st.attempts[a], st'.attempts[a];
               && (row'.status == row.status || Rank(row'.status) > Rank(row.status))
               && row'.bill == row.bill && row'.amount == row.amount
               && (row.status.Succeeded? ==> row' == row)
  {
    hide Ledger.Step; hide Find; hide Start; hide Deliver;
    match op
    case StartOp(bill, now, ttl) => StartRaises(st, bill, now, ttl, a);
    case DeliverOp(b, p, today) => DeliverRaises(st, b, p, today, a);
    case _ =>
  }

  lemma StepKeepsRequests(st: State, op: Move)
    requires RequestsSound(st.attempts, st.requested)
    ensures RequestsSound(Next(st, op).0.attempts, Next(st, op).0.requested)
  {
    if op.RequestRefundOp? || op.FinishRefundOp? {
    } else {
      SameRequests(st, op);
      hide Next;
      forall a | a in st.requested
        ensures var st' := Next(st, op).0;
                a < |st'.attempts| && (st'.attempts[a].status.RefundPending? || st'.attempts[a].status.Refunded?)
      {
        StepRaisesRank(st, op, a);
      }
    }
  }

  lemma SameRequests(st: State, op: Move)
    requires !op.RequestRefundOp? && !op.FinishRefundOp?
    ensures Next(st, op).0.requested == st.requested
  {
    hide Ledger.Step; hide Find; hide RecordCapture; hide SaveConflicts;
  }

  lemma DeliverRaises(st: State, b: nat, p: ProviderPayment, today: Date, a: nat)
    requires a < |st.attempts|
    ensures var st' := Deliver(st, b, p, today).0;
            && |st'.attempts| == |st.attempts|
            && var row, row' := st.attempts[a], st'.attempts[a];
               && (row'.status == row.status
                     || (Unsettled(row.status) && (row'.status.Succeeded? || row'.status.Unapplied?)))
               && row'.bill == row.bill && row'.amount == row.amount
               && (row.status.Succeeded? ==> row' == row)
  {
    hide RecordCapture; hide SaveConflicts;
  }

  lemma StartRaises(st: State, bill: nat, now: int, ttl: int, a: nat)
    requires a < |st.attempts|
    ensures var st' := Start(st, bill, now, ttl).0;
            && |st'.attempts| >= |st.attempts|
            && (st'.attempts[a] == st.attempts[a]
                || (IsOpenStatus(st.attempts[a].status) && st'.attempts[a] == st.attempts[a].(status := Expired)))
  {
    var open := Find(st.attempts, OpenFor(bill));
    if open.Some? { assert OpenFor(bill)(st.attempts[open.value]); }
    hide Find;
  }

  function Changes(st: State, ops: seq<Move>, a: nat): nat {
    if ops == [] then 0
    else
      var before, after := After(st, ops[..|ops| - 1]), After(st, ops);
      Changes(st, ops[..|ops| - 1], a)
      + if a < |before.attempts| && a < |after.attempts| && before.attempts[a].status != after.attempts[a].status
          then 1 else 0
  }

  /** However long the run, forged keys included, one attempt changes status at most five times. */
  lemma {:induction false} FewStatusChanges(st: State, ops: seq<Move>, a: nat)
    requires RequestsSound(st.attempts, st.requested) && a < |st.attempts|
    ensures var st' := After(st, ops);
            && RequestsSound(st'.attempts, st'.requested) && a < |st'.attempts|
            && Changes(st, ops, a) + Rank(st.attempts[a].status) <= Rank(st'.attempts[a].status) <= 5
  {
    hide Next; hide RequestsSound;
    if ops != [] {
      var init := ops[..|ops| - 1];
      FewStatusChanges(st, init, a);
      StepRaisesRank(After(st, init), ops[|ops| - 1], a);
      StepKeepsRequests(After(st, init), ops[|ops| - 1]);
    }
  }

  // ---------- exactly when a checkout lapses ----------

  /** The attempt after a look at what the provider lists, none of it a success. */
  ghost predicate PolledAs(st: State, a: nat, payments: seq<ProviderPayment>, now: int, st': State)
    requires a < |st.attempts|
  {
    && |st'.attempts| == |st.attempts| && st' == st.(attempts := st.attempts[a := st'.attempts[a]])
    && var row, row' := st.attempts[a], st'.attempts[a];
       && (row'.status.Expired? <==> now >= row.expiresAt && forall k :: 0 <= k < |payments| ==>
             !payments[k].status.Pending?)
       && row' == row.(status := if row'.status.Expired? then Expired else row.status,
                       lastStatus := if payments == [] then row.lastStatus
                           else Some(payments[|payments| - 1].status))
  }

  /** A poll that reports no success expires an open attempt if and only if its time is up and no listed payment
      is still pending; it remembers the newest listed status and changes nothing else. */
  lemma PollExpiresExactly(st: State, a: nat, payments: seq<ProviderPayment>, now: int)
    requires a < |st.attempts| && IsOpenStatus(st.attempts[a].status)
    requires forall k :: 0 <= k < |payments| ==> !payments[k].status.Success?
    ensures PolledAs(st, a, payments, now, Poll(st, a, payments, now).0)
  {
    var success, pending := Find(payments, IsSuccess()), Find(payments, IsPending());
    assert forall k :: 0 <= k < |payments| ==> !IsSuccess()(payments[k]);
    if pending.Some? { assert IsPending()(payments[pending.value]); }
    if pending.None? { assert forall k :: 0 <= k < |payments| ==> !IsPending()(payments[k]); }
    hide Find;
  }

  // ---------- exactly when a capture is credited ----------

  /** No other attempt already holds this provider payment. */
  ghost predicate Unclaimed(st: State, a: nat, id: string) {
    id == "" || forall j :: 0 <= j < |st.attempts| && j != a ==> st.attempts[j].providerPaymentId != id
  }

  /** What must hold for a capture to be credited, all of it visible before the call. */
  ghost predicate Fits(st: State, a: nat, p: ProviderPayment)
    requires a < |st.attempts| && st.attempts[a].bill < |st.book.bills|
  {
    var row, b := st.attempts[a], st.book.bills[st.attempts[a].bill];
    && p.amount == row.amount && p.currency == row.currency
    && IsOpen(b.status) && row.amount <= b.total - b.paid
    && Find(st.book.payments, HasReference(b.tenant, CashfreeReference(p.id))).None?
    && Unclaimed(st, a, p.id)
  }

  /** One payment more, the bill's balance up by the attempt's amount, the attempt settled with this capture. */
  ghost predicate Credited(st: State, st': State, a: nat, id: string) {
    && a < |st.attempts| && |st'.attempts| == |st.attempts| && st'.attempts == st.attempts[a := st'.attempts[a]]
    && st'.attempts[a].status.Succeeded? && st'.attempts[a].providerPaymentId == id
    && var row := st.attempts[a];
       && row.bill < |st.book.bills| == |st'.book.bills| && |st'.book.payments| == |st.book.payments| + 1
       && st'.book.bills[row.bill].paid == st.book.bills[row.bill].paid + row.amount
  }

  /** The ledger untouched, the attempt marked for refund. */
  ghost predicate KeptForRefund(st: State, st': State, a: nat) {
    && a < |st.attempts| && |st'.attempts| == |st.attempts| && st'.attempts == st.attempts[a := st'.attempts[a]]
    && st'.book == st.book && st'.attempts[a].status.Unapplied? && st'.attempts[a].payment.None?
  }

  /** A successful capture of an attempt that has not settled is credited if and only if it is for the exact
      amount and currency, the bill is open and still owes that much, its reference is new in the workspace
      and no other attempt holds the provider payment; with an unclaimed id it is otherwise kept for refund.
      Expiry and a failed order make no difference. */
  lemma CaptureCreditedExactly(st: State, a: nat, p: ProviderPayment, today: Date)
    requires Safe(st) && a < |st.attempts| && Unsettled(st.attempts[a].status) && p.status.Success?
    ensures st.attempts[a].bill < |st.book.bills|
    ensures var (st', outcome) := Deliver(st, a, p, today);
            && (outcome.SettledNow? <==> Fits(st, a, p))
            && (outcome.UnappliedNow? <==> !Fits(st, a, p) && Unclaimed(st, a, p.id))
            && (outcome.DuplicateProviderPayment? <==> !Unclaimed(st, a, p.id))
            && (outcome.SettledNow? ==> Credited(st, st', a, p.id))
            && (outcome.UnappliedNow? ==> KeptForRefund(st, st', a))
            && (outcome.DuplicateProviderPayment? ==> st' == st)
  {
    UnsettledRow(st, a);
    CaptureOutcome(st, a, p, today);
    hide Safe; hide Deliver;
    CreditableExactly(st, a, p, today);
    hide Creditable; hide Find; hide Unclaimed;
    CreditPays(st.book, st.attempts[a].bill, CapturePayment(st, a, p.id, today));
    hide Credit;
  }

  /** The ledger row a capture would create. */
  function CapturePayment(st: State, a: nat, id: string, today: Date): Payment
    requires a < |st.attempts| && st.attempts[a].bill < |st.book.bills|
  {
    var row := st.attempts[a];
    Payment(st.book.bills[row.bill].tenant, row.bill, row.amount, today, Online, Completed, CashfreeReference(id),
        OnlineKey(a))
  }

  /** The same in the ledger's own terms, with the exact states. */
  lemma CaptureOutcome(st: State, a: nat, p: ProviderPayment, today: Date)
    requires Safe(st) && a < |st.attempts| && Unsettled(st.attempts[a].status) && p.status.Success?
    ensures st.attempts[a].bill < |st.book.bills|
    ensures var row, (st', outcome) := st.attempts[a], Deliver(st, a, p, today);
            var pay := CapturePayment(st, a, p.id, today);
            var credits := p.amount == row.amount && p.currency == row.currency && Creditable(st.book, row.bill, pay);
            && (outcome.SettledNow? <==> credits && Unclaimed(st, a, p.id))
            && (outcome.UnappliedNow? <==> !credits && Unclaimed(st, a, p.id))
            && (outcome.DuplicateProviderPayment? <==> !Unclaimed(st, a, p.id))
            && (outcome.SettledNow? ==>
                  var settled := row.(status := Succeeded, payment := Some(|st.book.payments|),
                                      providerPaymentId := p.id, lastStatus := Some(Success));
                  st' == State(Credit(st.book, row.bill, pay), st.attempts[a := settled], st.requested))
            && (outcome.UnappliedNow? ==>
                  && st' == st.(attempts := st.attempts[a := st'.attempts[a]])
                  && st'.attempts[a]
                        == row.(status := Unapplied, providerPaymentId := p.id, lastStatus := Some(Success),
                                             reason := st'.attempts[a].reason))
            && (outcome.DuplicateProviderPayment? ==> st' == st)
  {
    hide Safe; hide RecordCapture; hide Creditable; hide SaveConflicts; hide Unclaimed; hide Credit; hide Linked;
    CaptureReply(st, a, p.id, today);
    UnsettledRow(st, a);
    assert st.attempts[a].bill < |st.book.bills|;
    hide AttemptOk;
    ConflictIsClaim(st, a, p.id);
  }

  /** Why a capture that does not fit is kept for refund. */
  ghost function RefundReason(st: State, a: nat, p: ProviderPayment): Reason
    requires a < |st.attempts| && st.attempts[a].bill < |st.book.bills|
  {
    var row, b := st.attempts[a], st.book.bills[st.attempts[a].bill];
    if p.amount != row.amount || p.currency != row.currency then AmountMismatch
    else if !IsOpen(b.status) then BillAlreadySettled
    else if row.amount > b.total - b.paid then RefusedWith(Overpayment)
    else RefusedWith(DuplicatePaymentReference)
  }

  /** What applying a provider payment must answer. */
  ghost function CaptureAnswer(st: State, a: nat, p: ProviderPayment): Outcome
    requires a < |st.attempts| ==> st.attempts[a].bill < |st.book.bills|
  {
    if a >= |st.attempts| then UnknownOrder
    else
      var row := st.attempts[a];
      if !p.status.Success? then StatusRecorded
      else if row.status.Succeeded? then if row.providerPaymentId == p.id then AlreadySettled else DuplicateCapture
      else if !Unsettled(row.status) then AlreadyUnapplied
      else if !Unclaimed(st, a, p.id) then DuplicateProviderPayment
      else if Fits(st, a, p) then SettledNow else UnappliedNow
  }

  /** What applying it must leave: the credited bill and the settled attempt, the attempt kept for refund with the
      reason, a failure noted on an open attempt, or everything as it was. */
  ghost predicate CaptureLeaves(st: State, a: nat, p: ProviderPayment, today: Date, st': State)
    requires a < |st.attempts| ==> st.attempts[a].bill < |st.book.bills|
  {
    var outcome := CaptureAnswer(st, a, p);
    if outcome.SettledNow? then
      var row := st.attempts[a];
      && st'.attempts == st.attempts[a := row.(status := Succeeded, payment := Some(|st.book.payments|),
                                               providerPaymentId := p.id, lastStatus := Some(Success))]
      && CreditedAs(st.book, row.bill,
                    Payment(st.book.bills[row.bill].tenant, row.bill, row.amount, today, Online, Completed,
                            CashfreeReference(p.id), OnlineKey(a)), st'.book)
      && st'.requested == st.requested
    else if outcome.UnappliedNow? then
      st' == st.(attempts := st.attempts[a := st.attempts[a].(status := Unapplied, providerPaymentId := p.id,
                                                              lastStatus := Some(Success),
                                                              reason := Some(RefundReason(st, a, p)))])
    else if outcome.StatusRecorded? && (st.attempts[a].status.Created? || st.attempts[a].status.Active?) then
      st' == st.(attempts := st.attempts[a := st.attempts[a].(lastStatus := Some(p.status))])
    else st' == st
  }

  lemma DeliverExactly(st: State, a: nat, p: ProviderPayment, today: Date)
    requires Safe(st)
    ensures a < |st.attempts| ==> st.attempts[a].bill < |st.book.bills|
    ensures Deliver(st, a, p, today).1 == CaptureAnswer(st, a, p)
    ensures CaptureLeaves(st, a, p, today, Deliver(st, a, p, today).0)
  {
    hide Safe; hide Fits; hide Unclaimed; hide RefundReason; hide CreditedAs;
    if a < |st.attempts| { BillOfAttempt(st, a); }
    if a < |st.attempts| && p.status.Success? && Unsettled(st.attempts[a].status) {
      hide Deliver;
      CaptureOutcome(st, a, p, today);
      CaptureCreditedExactly(st, a, p, today);
      if Unclaimed(st, a, p.id) {
        if Fits(st, a, p) { FittingCaptureCredits(st, a, p, today); } else { ReasonIs(st, a, p, today); }
      }
      hide Credit; hide Creditable;
    }
  }

  lemma BillOfAttempt(st: State, a: nat)
    requires Safe(st) && a < |st.attempts|
    ensures st.attempts[a].bill < |st.book.bills| && st.attempts[a].amount > 0
  {
    assert AttemptOk(st, a);
  }

  lemma FittingCaptureCredits(st: State, a: nat, p: ProviderPayment, today: Date)
    requires Safe(st) && a < |st.attempts| && Unsettled(st.attempts[a].status)
    requires st.attempts[a].bill < |st.book.bills| && Fits(st, a, p)
    ensures var row := st.attempts[a];
            CreditedAs(st.book, row.bill, CapturePayment(st, a, p.id, today),
                       Credit(st.book, row.bill, CapturePayment(st, a, p.id, today)))
  {
    CreditableExactly(st, a, p, today);
    assert Valid(st.book);
    hide Safe; hide Valid; hide Creditable; hide CreditedAs; hide Credit;
    CreditKeeps(st.book, st.attempts[a].bill, CapturePayment(st, a, p.id, today));
  }

  lemma ReasonIs(st: State, a: nat, p: ProviderPayment, today: Date)
    requires Safe(st) && a < |st.attempts| && Unsettled(st.attempts[a].status) && p.status.Success?
    requires st.attempts[a].bill < |st.book.bills| && Unclaimed(st, a, p.id) && !Fits(st, a, p)
    ensures var st' := Deliver(st, a, p, today).0;
            a < |st'.attempts| && st'.attempts[a].reason == Some(RefundReason(st, a, p))
  {
    hide Safe; hide Fits; hide RecordCapture; hide Unclaimed; hide Deliver; hide Creditable; hide Credit;
    CaptureOutcome(st, a, p, today);
    CaptureCreditedExactly(st, a, p, today);
    ReasonStored(st, a, p, today);
    var row := st.attempts[a];
    if p.amount == row.amount && p.currency == row.currency { RefusalOfCapture(st, a, p, today); }
  }

  /** The reason written with an unapplied capture: the mismatch, or the ledger's refusal. */
  lemma ReasonStored(st: State, a: nat, p: ProviderPayment, today: Date)
    requires a < |st.attempts| && st.attempts[a].bill < |st.book.bills| && Unsettled(st.attempts[a].status)
    requires p.status.Success? && Deliver(st, a, p, today).1.UnappliedNow?
    ensures var row, st', reply := st.attempts[a], Deliver(st, a, p, today).0, RecordCapture(st, a, p.id, today).1;
            && a < |st'.attempts|
            && (p.amount != row.amount || p.currency != row.currency ==>
                  st'.attempts[a].reason == Some(AmountMismatch))
            && (p.amount == row.amount && p.currency == row.currency && reply.Refused? ==>
                  st'.attempts[a].reason
                  == Some(if reply.code == BillNotPayable then BillAlreadySettled else RefusedWith(reply.code)))
  {
    hide RecordCapture; hide SaveConflicts;
  }

  lemma RefusalOfCapture(st: State, a: nat, p: ProviderPayment, today: Date)
    requires Safe(st) && a < |st.attempts| && Unsettled(st.attempts[a].status)
    requires st.attempts[a].bill < |st.book.bills|
    requires p.amount == st.attempts[a].amount && p.currency == st.attempts[a].currency
    requires Unclaimed(st, a, p.id) && !Fits(st, a, p)
    ensures var row, b := st.attempts[a], st.book.bills[st.attempts[a].bill];
            RecordCapture(st, a, p.id, today).1
            == Refused(if !IsOpen(b.status) then BillNotPayable
                       else if row.amount > b.total - b.paid then Overpayment else DuplicatePaymentReference)
  {
    var row, b := st.attempts[a], st.book.bills[st.attempts[a].bill];
    hide Pay; hide Creditable;
    BillOfAttempt(st, a);
    UnsettledRow(st, a);
    KeyIsFree(st, a);
    KeyIsFreeRows(st.book, b.tenant, OnlineKey(a));
    CaptureReply(st, a, p.id, today);
    CreditableExactly(st, a, p, today);
    assert Valid(st.book);
    hide Safe; hide Find; hide HasKey; hide HasReference;
    PayAnswers(st.book, b.tenant, row.bill, row.amount, today, today, Online, CashfreeReference(p.id), OnlineKey(a));
    hide Valid;
  }

  lemma CreditPays(book: Book, i: nat, p: Payment)
    requires i < |book.bills|
    ensures var book' := Credit(book, i, p);
            |book'.bills| == |book.bills| && |book'.payments| == |book.payments| + 1
                && book'.bills[i].paid == book.bills[i].paid + p.amount
  {
  }

  lemma CreditableExactly(st: State, a: nat, p: ProviderPayment, today: Date)
    requires Safe(st) && a < |st.attempts| && Unsettled(st.attempts[a].status)
    requires st.attempts[a].bill < |st.book.bills|
    ensures var row, b := st.attempts[a], st.book.bills[st.attempts[a].bill];
            Creditable(st.book, row.bill, CapturePayment(st, a, p.id, today))
            <==> IsOpen(b.status) && row.amount <= b.total - b.paid
                 && Find(st.book.payments, HasReference(b.tenant, CashfreeReference(p.id))).None?
  {
    UnsettledRow(st, a);
    KeyIsFree(st, a);
    var b := st.book.bills[st.attempts[a].bill];
    assert st.attempts[a].amount > 0 by { assert AttemptOk(st, a); }
    hide Safe;
    ReferenceIsFree(st.book, b.tenant, CashfreeReference(p.id));
    KeyIsFreeRows(st.book, b.tenant, OnlineKey(a));
    hide Find;
  }

  lemma ReferenceIsFree(book: Book, tenant: nat, reference: Reference)
    ensures Find(book.payments, HasReference(tenant, reference)).None? <==>
              forall q :: 0 <= q < |book.payments| ==> !HasReference(tenant, reference)(book.payments[q])
  {
  }

  lemma KeyIsFreeRows(book: Book, tenant: nat, key: Key)
    ensures Find(book.payments, HasKey(tenant, key)).None? <==>
              forall q :: 0 <= q < |book.payments| ==> !HasKey(tenant, key)(book.payments[q])
  {
  }

  /** Saving the attempt with a fresh payment link, or none, fails exactly when the provider id is claimed. */
  lemma ConflictIsClaim(st: State, a: nat, id: string)
    requires Safe(st) && a < |st.attempts|
    ensures forall row: Attempt ::
              row.providerPaymentId == id && (row.payment.None? || row.payment == Some(|st.book.payments|)) ==>
                (SaveConflicts(st.attempts, a, row) <==> !Unclaimed(st, a, id))
  {
    forall row: Attempt | row.providerPaymentId == id && (row.payment.None? || row.payment == Some(|st.book.payments|))
      ensures SaveConflicts(st.attempts, a, row) <==> !Unclaimed(st, a, id)
    {
      if row.payment.Some? { NewLinkIsFree(st, a, row); }
      hide Safe;
    }
  }

  // ---------- every step of a run ----------

  /** Each step of the protocol answers and leaves what its own rule says; a step on an attempt in another status
      leaves everything as it was. */
  ghost predicate MovedAs(st: State, op: Move, st': State, outcome: Outcome) {
    match op
    case LedgerOp(o) => st' == st.(book := st'.book) && exists reply :: SteppedAs(st.book, o, st'.book, reply)
    case StartOp(bill, now, ttl) => StartedAs(st, bill, now, ttl, st', outcome)
    case ActivateOp(a, session) =>
      st' == if a < |st.attempts| && st.attempts[a].status.Created?
             then st.(attempts := st.attempts[a := st.attempts[a].(status := Active, session := session)]) else st
    case RejectOp(a) =>
      st' == if a < |st.attempts| && st.attempts[a].status.Created?
             then st.(attempts := st.attempts[a := st.attempts[a].(status := Failed)]) else st
    case GiveUpOp(a, now) =>
      st' == if a < |st.attempts| && st.attempts[a].status.Created? && now - st.attempts[a].createdAt > 60
             then st.(attempts := st.attempts[a := st.attempts[a].(status := Expired)]) else st
    case DeliverOp(a, p, today) =>
      && (a < |st.attempts| ==> st.attempts[a].bill < |st.book.bills|)
      && outcome == CaptureAnswer(st, a, p) && CaptureLeaves(st, a, p, today, st')
    case PollOp(a, payments, now) =>
      if a < |st.attempts| && (st.attempts[a].status.Created? || st.attempts[a].status.Active?)
         && (forall k :: 0 <= k < |payments| ==> !payments[k].status.Success?)
      then PolledAs(st, a, payments, now, st') else st' == st
    case RequestRefundOp(a) =>
      st' == if a < |st.attempts| && (st.attempts[a].status.Unapplied? || st.attempts[a].status.RefundPending?)
             then State(st.book, st.attempts[a := st.attempts[a].(status := RefundPending)], st.requested + {a})
             else st
    case FinishRefundOp(a, status) =>
      st' == if a in st.requested && a < |st.attempts|
             then st.(attempts := st.attempts[a := st.attempts[a].(
                        refundStatus := status,
                        status := if status == "SUCCESS" then Refunded else st.attempts[a].status)])
             else st
  }

  lemma MoveExactly(st: State, op: Move)
    requires Safe(st)
    ensures MovedAs(st, op, Next(st, op).0, Next(st, op).1)
  {
    hide Safe; hide Valid; hide Deliver; hide Start; hide Ledger.Step; hide SteppedAs; hide StartedAs; hide Find;
    hide CaptureAnswer; hide CaptureLeaves; hide PolledAs; hide OneOpenPerBill; hide Poll;
    SafeParts(st);
    match op
    case LedgerOp(o) => StepExactly(st.book, o);
    case StartOp(bill, now, ttl) => StartExactly(st, bill, now, ttl);
    case DeliverOp(a, p, today) => DeliverExactly(st, a, p, today);
    case PollOp(a, payments, now) => PollExactly(st, a, payments, now);
    case _ =>
  }

  lemma PollExactly(st: State, a: nat, payments: seq<ProviderPayment>, now: int)
    ensures MovedAs(st, PollOp(a, payments, now), Poll(st, a, payments, now).0, Poll(st, a, payments, now).1)
  {
    hide Find; hide PolledAs;
    if a < |st.attempts| && IsOpenStatus(st.attempts[a].status) {
      if forall k :: 0 <= k < |payments| ==> !payments[k].status.Success? {
        PollExpiresExactly(st, a, payments, now);
      } else {
        var k :| 0 <= k < |payments| && payments[k].status.Success?;
        assert IsSuccess()(payments[k]);
      }
    }
  }

  /** Whatever happened before, without forged keys, the next step does what its rule says. */
  lemma RunMovesExactly(ops: seq<Move>, op: Move)
    requires forall k :: 0 <= k < |ops| ==> Honest(ops[k])
    ensures var st := After(INITIAL, ops);
            MovedAs(st, op, After(INITIAL, ops + [op]), Next(st, op).1)
  {
    hide MovedAs; hide Next; hide Safe;
    RunsAreSafe(ops);
    assert (ops + [op])[..|ops|] == ops;
    MoveExactly(After(INITIAL, ops), op);
  }
}
