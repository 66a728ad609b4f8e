/** Online payment attempts: each transaction of the checkout protocol as one atomic step over the
    ledger and the attempt table. Gateway answers are arguments: the environment may give any. */
module Checkout {
  import opened Tables
  import opened Calendar
  import opened Ledger

  datatype Status = Created | Active | Succeeded | Failed | Expired | Unapplied | RefundPending | Refunded

  datatype ProviderStatus = Success | Pending | PaymentFailed | UserDropped | PaymentCancelled | NotAttempted | Unknown

  datatype ProviderPayment = ProviderPayment(id: string, status: ProviderStatus, amount: int, currency: string)

  datatype Reason = AmountMismatch | BillAlreadySettled | RefusedWith(code: Code)

  /** Row n of the attempt table; its provider order id is derived from n and thus unique. */
  datatype Attempt = Attempt(
    bill: nat, amount: int, currency: string, status: Status, createdAt: int, expiresAt: int,
    session: string, providerPaymentId: string, lastStatus: Option<ProviderStatus>,
    reason: Option<Reason>, payment: Option<nat>, refundStatus: string)

  /** `requested` holds the attempts for which some refund request has committed; any number of gateway
      answers to such requests may still arrive. */
  datatype State = State(book: Book, attempts: seq<Attempt>, requested: set<nat>)

  const INITIAL := State(EMPTY, [], {})

  const MIN_REMAINING := 180
  const STUCK_CREATE_AFTER := 60
  const SUPPORTED_CURRENCY := "INR"

  predicate IsOpenStatus(s: Status) { s.Created? || s.Active? }

  datatype Outcome =
    | AttemptIs(id: nat) | StepDone | Rejected(code: StartCode)
    | UnknownOrder | StatusRecorded | AlreadySettled | DuplicateCapture | AlreadyUnapplied
    | UnappliedNow | SettledNow | DuplicateProviderPayment
    | RefundNotAllowed | AlreadyRefunded

  datatype StartCode =
    | NoSuchBill | NotPayable | CurrencyNotSupported | PaymentInProgress | ProviderUnavailable | ProviderRejected

  function WithAttempt(st: State, a: nat, row: Attempt): State
    requires a < |st.attempts|
  {
    st.(attempts := st.attempts[a := row])
  }

  function OpenFor(bill: nat): Attempt -> bool { (a: Attempt) => a.bill == bill && IsOpenStatus(a.status) }

  // ---------- start ----------

  /** An open attempt is replaced when the amount due changed or it lapses within three minutes. */
  predicate Reusable(a: Attempt, due: int, now: int) {
    a.amount == due && a.expiresAt - now >= MIN_REMAINING
  }

  function NewAttempt(bill: nat, due: int, currency: string, now: int, ttl: int): Attempt {
    Attempt(bill, due, currency, Created, now, now + ttl, "", "", None, None, None, "")
  }

  /** The locked transaction of `start`. A row that violates the one-open-attempt constraint rolls it back. */
  function Start(st: State, bill: nat, now: int, ttl: int): (State, Outcome) {
    if bill >= |st.book.bills| then (st, Rejected(NoSuchBill))
    else
      var b := st.book.bills[bill];
      if !IsOpen(b.status) then (st, Rejected(NotPayable))
      else if b.currency != SUPPORTED_CURRENCY then (st, Rejected(CurrencyNotSupported))
      else
        var due := b.total - b.paid;
        if due <= 0 then (st, Rejected(NotPayable))
        else
          ReuseOrReplace(st, NewAttempt(bill, due, b.currency, now, ttl), now)
  }

  /** `row` is the attempt a new checkout would get. */
  function ReuseOrReplace(st: State, row: Attempt, now: int): (State, Outcome) {
    match Find(st.attempts, OpenFor(row.bill))
    case None => Insert(st, row, st)
    case Some(a) =>
      if Reusable(st.attempts[a], row.amount, now) then (st, AttemptIs(a))
      else Insert(WithAttempt(st, a, st.attempts[a].(status := Expired)), row, st)
  }

  function Insert(st: State, row: Attempt, rollback: State): (State, Outcome) {
    if Find(st.attempts, OpenFor(row.bill)).None? then (st.(attempts := st.attempts + [row]), AttemptIs(|st.attempts|))
    else
      match Find(rollback.attempts, OpenFor(row.bill))
      case Some(winner) => (rollback, AttemptIs(winner))
      case None => (rollback, Rejected(PaymentInProgress))
  }

  // ---------- provider order ----------

  /** Every answer to the create-order call touches the attempt only while it is still CREATED. */
  function Activate(st: State, a: nat, session: string): (State, Outcome) {
    if a < |st.attempts| && st.attempts[a].status.Created?
    then (WithAttempt(st, a, st.attempts[a].(status := Active, session := session)), StepDone)
    else (st, StepDone)
  }

  function RejectOrder(st: State, a: nat): (State, Outcome) {
    if a < |st.attempts| && st.attempts[a].status.Created?
    then (WithAttempt(st, a, st.attempts[a].(status := Failed)), StepDone)
    else (st, StepDone)
  }

  function GiveUpOrder(st: State, a: nat, now: int): (State, Outcome) {
    if a < |st.attempts| && st.attempts[a].status.Created? && now - st.attempts[a].createdAt > STUCK_CREATE_AFTER
    then (WithAttempt(st, a, st.attempts[a].(status := Expired)), StepDone)
    else (st, StepDone)
  }

  // ---------- settlement ----------

  /** `attempt.save()`: the unique provider payment id and the one-to-one payment link. */
  predicate SaveConflicts(attempts: seq<Attempt>, a: nat, row: Attempt) {
    exists j :: 0 <= j < |attempts| && j != a
      && ((row.providerPaymentId != "" && attempts[j].providerPaymentId == row.providerPaymentId)
          || (row.payment.Some? && attempts[j].payment == row.payment))
  }

  function Save(st: State, a: nat, row: Attempt, outcome: Outcome, rollback: State): (State, Outcome)
    requires a < |st.attempts|
  {
    if SaveConflicts(st.attempts, a, row) then (rollback, DuplicateProviderPayment)
    else (WithAttempt(st, a, row), outcome)
  }

  /** The ledger call a capture makes; today is both the payment date and the server's date. */
  function RecordCapture(st: State, a: nat, paymentId: string, today: Date): (Book, Reply)
    requires a < |st.attempts| && st.attempts[a].bill < |st.book.bills|
  {
    var row := st.attempts[a];
    Pay(st.book, st.book.bills[row.bill].tenant, row.bill, row.amount, today, today, Online,
        CashfreeReference(paymentId), OnlineKey(a))
  }

  /** `apply_payment`. A domain refusal inside the savepoint becomes UNAPPLIED; a constraint violation on the
      attempt row rolls the whole transaction back. */
  function Deliver(st: State, a: nat, p: ProviderPayment, today: Date): (State, Outcome) {
    if a >= |st.attempts| || st.attempts[a].bill >= |st.book.bills| then (st, UnknownOrder)
    else
      var row := st.attempts[a];
      if !p.status.Success? then
        (if IsOpenStatus(row.status) then WithAttempt(st, a, row.(lastStatus := Some(p.status)))
            else st, StatusRecorded)
      else if row.status.Succeeded? then
        (st, if row.providerPaymentId == p.id then AlreadySettled else DuplicateCapture)
      else if row.status.Unapplied? || row.status.RefundPending? || row.status.Refunded? then (st, AlreadyUnapplied)
      else
        var captured := row.(providerPaymentId := p.id, lastStatus := Some(Success));
        if p.currency != row.currency || p.amount != row.amount then
          Save(st, a, captured.(status := Unapplied, reason := Some(AmountMismatch)), UnappliedNow, st)
        else
          match RecordCapture(st, a, p.id, today)
          case (book, PaymentIs(id, _)) =>
            Save(st.(book := book), a, captured.(status := Succeeded, payment := Some(id)), SettledNow, st)
          case (_, Refused(code)) =>
            var reason := if code == BillNotPayable then BillAlreadySettled else RefusedWith(code);
            Save(st, a, captured.(status := Unapplied, reason := Some(reason)), UnappliedNow, st)
          case (_, Done) => (st, StepDone)
  }

  // ---------- reconciliation ----------

  function IsSuccess(): ProviderPayment -> bool { (p: ProviderPayment) => p.status.Success? }
  function IsPending(): ProviderPayment -> bool { (p: ProviderPayment) => p.status.Pending? }

  /** The closing transaction of `reconcile`, run when the provider reports no successful payment. */
  function Poll(st: State, a: nat, payments: seq<ProviderPayment>, now: int): (State, Outcome) {
    if a >= |st.attempts| || !IsOpenStatus(st.attempts[a].status)
        || Find(payments, IsSuccess()).Some? then (st, StepDone)
    else
      var row := st.attempts[a];
      var seen := if payments != [] then row.(lastStatus := Some(payments[|payments| - 1].status)) else row;
      var lapsed := Find(payments, IsPending()).None? && now >= row.expiresAt;
      (WithAttempt(st, a, if lapsed then seen.(status := Expired) else seen), StepDone)
  }

  // ---------- refunds ----------

  function RequestRefund(st: State, a: nat): (State, Outcome) {
    if a >= |st.attempts| then (st, RefundNotAllowed)
    else
      var row := st.attempts[a];
      if row.status.Refunded? then (st, AlreadyRefunded)
      else if !row.status.Unapplied? && !row.status.RefundPending? then (st, RefundNotAllowed)
      else (WithAttempt(st, a, row.(status := RefundPending)).(requested := st.requested + {a}), StepDone)
  }

  /** The second transaction of `refund`, reached only behind a committed request and a gateway answer. */
  function FinishRefund(st: State, a: nat, status: string): (State, Outcome) {
    if a !in st.requested || a >= |st.attempts| then (st, StepDone)
    else
      var row := st.attempts[a].(refundStatus := status);
      var row' := if status == "SUCCESS" && !row.status.Refunded? then row.(status := Refunded) else row;
      (WithAttempt(st, a, row'), StepDone)
  }

  // ---------- all interleavings ----------

  datatype Move =
    | LedgerOp(op: Ledger.Op)
    | StartOp(bill: nat, now: int, ttl: int)
    | ActivateOp(attempt: nat, session: string)
    | RejectOp(attempt: nat)
    | GiveUpOp(attempt: nat, now: int)
    | DeliverOp(attempt: nat, payment: ProviderPayment, today: Date)
    | PollOp(attempt: nat, payments: seq<ProviderPayment>, now: int)
    | RequestRefundOp(attempt: nat)
    | FinishRefundOp(attempt: nat, status: string)

  function Next(st: State, op: Move): (State, Outcome) {
    match op
    case LedgerOp(o) => (st.(book := Ledger.Step(st.book, o).0), StepDone)
    case StartOp(bill, now, ttl) => Start(st, bill, now, ttl)
    case ActivateOp(a, session) => Activate(st, a, session)
    case RejectOp(a) => RejectOrder(st, a)
    case GiveUpOp(a, now) => GiveUpOrder(st, a, now)
    case DeliverOp(a, p, today) => Deliver(st, a, p, today)
    case PollOp(a, payments, now) => Poll(st, a, payments, now)
    case RequestRefundOp(a) => RequestRefund(st, a)
    case FinishRefundOp(a, status) => FinishRefund(st, a, status)
  }

  function After(st: State, ops: seq<Move>): State {
    if ops == [] then st else Next(After(st, ops[..|ops| - 1]), ops[|ops| - 1]).0
  }

  /** Requests owners send themselves do not use the key prefix reserved for captures. */
  ghost predicate Honest(op: Move) {
    op.LedgerOp? && op.op.PayOp? ==> !op.op.key.OnlineKey?
  }

  lemma AfterConcat(st: State, a: seq<Move>, b: seq<Move>)
    ensures After(st, a + b) == After(After(st, a), b)
    decreases |b|
  {
    if b == [] {
      assert a + b == a;
    } else {
      assert (a + b)[..|a + b| - 1] == a + b[..|b| - 1];
      AfterConcat(st, a, b[..|b| - 1]);
    }
  }

  lemma AfterOne(st: State, op: Move)
    ensures After(st, [op]) == Next(st, op).0
  {
    assert [op][..0] == [];
  }

  lemma AfterNone(st: State, ops: seq<Move>)
    ensures After(st, ops[..0]) == st
    ensures ops == [] ==> After(st, ops) == st
  {
  }
}
