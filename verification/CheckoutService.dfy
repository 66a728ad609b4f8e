/** `OnlinePaymentService` as it runs: attempt rows are a field, each transaction a block of writes, and
    each request a sequence of the protocol's atomic steps. Gateway answers are parameters. */
module CheckoutService {
  import opened Tables
  import opened Calendar
  import opened Ledger
  import opened LedgerInvariant
  import opened LedgerService
  import opened Checkout
  import opened Settlement
  import opened SettlementHistory
  import opened Confluence

  /** What the create-order call, and the read-back behind it, can report. */
  datatype OrderAnswer =
    | OrderReady(session: string)
    | OrderTaken(session: string, inProgress: bool)
    | OrderRefused
    | OrderUnknown

  /** The transactions one `reconcile` of an open attempt performs, given what the provider lists. */
  function ReconcileMoves(a: nat, payments: seq<ProviderPayment>, today: Date, now: int): seq<Move> {
    var successes := Keep(payments, IsSuccess());
    if successes == [] then [PollOp(a, payments, now)] else Deliveries(a, successes, today)
  }

  function Deliveries(a: nat, successes: seq<ProviderPayment>, today: Date): (r: seq<Move>)
    ensures |r| == |successes|
    ensures forall k :: 0 <= k < |r| ==> r[k] == DeliverOp(a, successes[k], today)
  {
    seq(|successes|, k requires 0 <= k < |successes| => DeliverOp(a, successes[k], today))
  }

  lemma KeepNone(payments: seq<ProviderPayment>)
    ensures Keep(payments, IsSuccess()) == [] <==> Find(payments, IsSuccess()).None?
  {
    if Keep(payments, IsSuccess()) != [] {
      var x := Keep(payments, IsSuccess())[0];
      assert x in payments && IsSuccess()(x);
    }
    if k :| 0 <= k < |payments| && IsSuccess()(payments[k]) { assert payments[k] in Keep(payments, IsSuccess()); }
  }

  lemma MovesOfReconcile(a: nat, payments: seq<ProviderPayment>, today: Date, now: int)
    ensures var successes := Keep(payments, IsSuccess());
            ReconcileMoves(a, payments, today, now)
            == if successes == [] then [PollOp(a, payments, now)] else Deliveries(a, successes, today)
  {
    hide Keep;
  }

  /** The listed payment that decides: the first success that no other attempt holds. */
  ghost predicate Decides(st: State, a: nat, payments: seq<ProviderPayment>, k: int) {
    && 0 <= k < |payments| && payments[k].status.Success? && Unclaimed(st, a, payments[k].id)
    && forall j :: 0 <= j < k && payments[j].status.Success? ==> !Unclaimed(st, a, payments[j].id)
  }

  /** What `reconcile` must leave. A closed attempt, or an ACTIVE one the provider gives no answer for, stays as it
      was; a CREATED one counts as having no payments. Without a success the attempt lapses exactly when its time is
      up and nothing is pending, and remembers the newest status; with successes it is left as the deciding one
      leaves it, or untouched if other attempts hold them all. */
  ghost predicate ReconciledAs(st: State, a: nat, answer: Option<seq<ProviderPayment>>, today: Date, now: int,
                               st': State)
    requires a < |st.attempts|
  {
    var row := st.attempts[a];
    if !(row.status.Created? || row.status.Active?) || (row.status.Active? && answer.None?) then st' == st
    else ListedAs(st, a, if row.status.Active? then answer.value else [], today, now, st')
  }

  ghost predicate ListedAs(st: State, a: nat, payments: seq<ProviderPayment>, today: Date, now: int, st': State)
    requires a < |st.attempts|
  {
    && st.attempts[a].bill < |st.book.bills|
    && ((forall k :: 0 <= k < |payments| ==> !payments[k].status.Success?) ==> PolledAs(st, a, payments, now, st'))
    && (forall k :: Decides(st, a, payments, k) ==> CaptureLeaves(st, a, payments[k], today, st'))
    && ((exists k :: 0 <= k < |payments| && payments[k].status.Success?) ==>
          (forall k :: !Decides(st, a, payments, k)) ==> st' == st)
  }

  lemma ReconcileExactly(st: State, a: nat, answer: Option<seq<ProviderPayment>>, today: Date, now: int)
    requires Safe(st) && a < |st.attempts|
    ensures var row := st.attempts[a];
            var listed := if row.status.Active? then answer else Some([]);
            ReconciledAs(st, a, answer, today, now,
                         if IsOpenStatus(row.status) && listed.Some?
                         then After(st, ReconcileMoves(a, listed.value, today, now)) else st)
  {
    hide Safe; hide After; hide Keep; hide PolledAs; hide CaptureLeaves; hide Unclaimed; hide ReconcileMoves;
    var listed := if st.attempts[a].status.Active? then answer else Some([]);
    if IsOpenStatus(st.attempts[a].status) && listed.Some? {
      var payments := if st.attempts[a].status.Active? then answer.value else [];
      assert payments == listed.value;
      AttemptHasBill(st, a);
      KeepNone(payments);
      SuccessIsFound(payments);
      hide Find;
      WithoutSuccess(st, a, payments, today, now);
      if Keep(payments, IsSuccess()) != [] {
        WithSuccess(st, a, payments, today, now);
      } else {
        assert forall k :: !Decides(st, a, payments, k);
      }
    }
  }

  lemma SuccessIsFound(payments: seq<ProviderPayment>)
    ensures Find(payments, IsSuccess()).None? <==>
              forall k :: 0 <= k < |payments| ==> !payments[k].status.Success?
  {
    var found := Find(payments, IsSuccess());
    if found.Some? { assert IsSuccess()(payments[found.value]); }
    if found.None? { assert forall k :: 0 <= k < |payments| ==> !IsSuccess()(payments[k]); }
  }

  lemma WithoutSuccess(st: State, a: nat, payments: seq<ProviderPayment>, today: Date, now: int)
    requires a < |st.attempts| && IsOpenStatus(st.attempts[a].status)
    ensures (forall k :: 0 <= k < |payments| ==> !payments[k].status.Success?) ==>
              PolledAs(st, a, payments, now, After(st, ReconcileMoves(a, payments, today, now)))
  {
    hide Keep; hide Poll; hide PolledAs; hide After; hide Find; hide ReconcileMoves;
    if forall k :: 0 <= k < |payments| ==> !payments[k].status.Success? {
      PollExpiresExactly(st, a, payments, now);
      SuccessIsFound(payments);
      KeepNone(payments);
      MovesOfReconcile(a, payments, today, now);
      AfterOne(st, PollOp(a, payments, now));
    }
  }

  lemma WithSuccess(st: State, a: nat, payments: seq<ProviderPayment>, today: Date, now: int)
    requires Safe(st) && a < |st.attempts| && IsOpenStatus(st.attempts[a].status)
    requires st.attempts[a].bill < |st.book.bills|
    requires Keep(payments, IsSuccess()) != []
    ensures var st' := After(st, ReconcileMoves(a, payments, today, now));
            && (forall k :: Decides(st, a, payments, k) ==> CaptureLeaves(st, a, payments[k], today, st'))
            && ((forall k :: !Decides(st, a, payments, k)) ==> st' == st)
  {
    var successes := Keep(payments, IsSuccess());
    hide Safe; hide Keep; hide CaptureLeaves; hide Deliver; hide After; hide Unclaimed; hide ReconcileMoves;
    MovesOfReconcile(a, payments, today, now);
    assert forall j :: 0 <= j < |successes| ==> successes[j] in successes;
    assert forall j :: 0 <= j < |successes| ==> IsSuccess()(successes[j]);
    forall k | Decides(st, a, payments, k)
      ensures CaptureLeaves(st, a, payments[k], today, After(st, ReconcileMoves(a, payments, today, now)))
    {
      var m := FirstKept(st, a, payments, k);
      FirstDecides(st, a, successes, m, today);
      DeliverExactly(st, a, payments[k], today);
    }
    if forall k :: !Decides(st, a, payments, k) {
      NoneKept(st, a, payments);
      AllClaimed(st, a, successes, today);
    }
  }

  /** The deciding payment among the successes alone. */
  lemma {:induction false} FirstKept(st: State, a: nat, payments: seq<ProviderPayment>, k: nat) returns (m: nat)
    requires Decides(st, a, payments, k)
    ensures var successes := Keep(payments, IsSuccess());
            && m < |successes| && successes[m] == payments[k]
            && Unclaimed(st, a, successes[m].id) && forall j :: 0 <= j < m ==> !Unclaimed(st, a, successes[j].id)
  {
    hide Unclaimed;
    var n := |payments| - 1;
    if k < n {
      m := FirstKept(st, a, payments[..n], k);
    } else {
      m := |Keep(payments[..n], IsSuccess())|;
      forall j | 0 <= j < m ensures !Unclaimed(st, a, Keep(payments[..n], IsSuccess())[j].id) {
        assert Keep(payments[..n], IsSuccess())[j] in payments[..n];
      }
    }
  }

  lemma {:induction false} NoneKept(st: State, a: nat, payments: seq<ProviderPayment>)
    requires forall k :: !Decides(st, a, payments, k)
    ensures forall p :: p in payments && p.status.Success? ==> !Unclaimed(st, a, p.id)
    ensures forall p :: p in Keep(payments, IsSuccess()) ==> p.status.Success? && !Unclaimed(st, a, p.id)
  {
    hide Unclaimed;
    if payments != [] {
      var n := |payments| - 1;
      forall k ensures !Decides(st, a, payments[..n], k) {
        assert Decides(st, a, payments[..n], k) ==> Decides(st, a, payments, k);
      }
      NoneKept(st, a, payments[..n]);
      assert forall j :: 0 <= j < n ==> payments[j] in payments[..n];
      assert !Decides(st, a, payments, n);
    }
  }

  /** Payments that other attempts hold change nothing, however many arrive. */
  lemma {:induction false} AllClaimed(st: State, a: nat, successes: seq<ProviderPayment>, today: Date)
    requires Safe(st) && a < |st.attempts| && IsOpenStatus(st.attempts[a].status)
    requires forall j :: 0 <= j < |successes| ==>
        successes[j].status.Success? && !Unclaimed(st, a, successes[j].id)
    ensures After(st, Deliveries(a, successes, today)) == st
  {
    hide Safe; hide Deliver; hide Unclaimed;
    if successes != [] {
      var n := |successes| - 1;
      AllClaimed(st, a, successes[..n], today);
      CaptureCreditedExactly(st, a, successes[n], today);
      assert Deliveries(a, successes, today)[..n] == Deliveries(a, successes[..n], today);
    }
  }

  lemma {:induction false} FirstDecides(st: State, a: nat, successes: seq<ProviderPayment>, k: nat, today: Date)
    requires Safe(st) && a < |st.attempts| && IsOpenStatus(st.attempts[a].status)
    requires forall j :: 0 <= j < |successes| ==> successes[j].status.Success?
    requires k < |successes| && Unclaimed(st, a, successes[k].id)
    requires forall j :: 0 <= j < k ==> !Unclaimed(st, a, successes[j].id)
    ensures After(st, Deliveries(a, successes, today)) == Deliver(st, a, successes[k], today).0
  {
    hide Safe; hide Deliver; hide Unclaimed; hide Decided;
    var n := |successes| - 1;
    assert Deliveries(a, successes, today)[..n] == Deliveries(a, successes[..n], today);
    if k == n {
      AllClaimed(st, a, successes[..n], today);
    } else {
      FirstDecides(st, a, successes[..n], k, today);
      DeliverDecides(st, a, successes[k], today);
      SecondIsIgnored(Deliver(st, a, successes[k], today).0, a, successes[k], successes[n], today);
    }
  }

  lemma SecondIsIgnored(st: State, a: nat, p: ProviderPayment, q: ProviderPayment, today: Date)
    requires a < |st.attempts| && Decided(st, a, p) && q.status.Success?
    ensures Deliver(st, a, q, today).0 == st
  {
    hide RecordCapture;
  }

  /** A sweep that finds the order paid leaves what the webhook alone would have left. */
  lemma ReconcileAgreesWithWebhook(st: State, a: nat, payments: seq<ProviderPayment>, p: ProviderPayment, today: Date,
      now: int)
    requires Safe(st) && a < |st.attempts| && Unsettled(st.attempts[a].status)
    requires p in payments && p.status.Success? && Unclaimed(st, a, p.id)
    requires forall q :: q in payments && q.status.Success? ==> q == p
    ensures var st' := After(st, ReconcileMoves(a, payments, today, now));
            && a < |st'.attempts| && a < |Deliver(st, a, p, today).0.attempts|
            && ViewOf(st', a) == ViewOf(Deliver(st, a, p, today).0, a)
  {
    hide Safe; hide Deliver; hide Unclaimed; hide Keep; hide After;
    var moves, successes := ReconcileMoves(a, payments, today, now), Keep(payments, IsSuccess());
    assert p in successes;
    forall k | 0 <= k < |moves| ensures OnOrder(moves[k], a, p) && Delivers(moves[k], p) {
      assert successes[k] in successes;
    }
    assert Delivers(moves[0], p);
    DeliveryOrderIrrelevant(st, moves, a, p, today);
  }

  /** The transaction behind each answer to the create-order call. */
  function OrderMoves(a: nat, row: Attempt, answer: OrderAnswer, clock: int): seq<Move> {
    if row.status.Active? && row.session != "" then []
    else
      match answer
      case OrderReady(session) => [ActivateOp(a, session)]
      case OrderTaken(session, inProgress) =>
        if session != "" then [ActivateOp(a, session)] else if inProgress then [GiveUpOp(a, clock)] else []
      case OrderRefused => [RejectOp(a)]
      case OrderUnknown => []
  }

  /** What each answer makes of an attempt: payable under the provider's session, failed, given up after a minute,
      or still waiting; only a CREATED one changes, and only in status and session. */
  ghost predicate OrderAnswered(was: Attempt, row: Attempt, answer: OrderAnswer, clock: int) {
    if !was.status.Created? then row == was
    else if answer.OrderReady? || (answer.OrderTaken? && answer.session != "") then
      row == was.(status := Active, session := answer.session)
    else if answer.OrderRefused? then row == was.(status := Failed)
    else if answer == OrderTaken("", true) && clock - was.createdAt > 60 then row == was.(status := Expired)
    else row == was
  }

  /** What the request must answer: the attempt is handed out exactly when it was payable already, or is CREATED and
      the provider names a session for it. */
  ghost predicate OrderReplied(a: nat, was: Attempt, answer: OrderAnswer, outcome: Outcome) {
    var named := (answer.OrderReady? || answer.OrderTaken?) && answer.session != "";
    if (was.status.Active? && was.session != "") || (was.status.Created? && named) then outcome == AttemptIs(a)
    else outcome == Rejected(if answer.OrderRefused? then ProviderRejected
                             else if answer.OrderUnknown? || answer == OrderTaken("", false) then ProviderUnavailable
                             else PaymentInProgress)
  }

  function RefundMoves(a: nat, row: Attempt, answer: Option<string>): seq<Move> {
    if !row.status.Unapplied? && !row.status.RefundPending? then []
    else if answer.None? then [RequestRefundOp(a)]
    else [RequestRefundOp(a), FinishRefundOp(a, answer.value)]
  }

  /** What the request starts from: the state it found, or what the provider's list makes of the ACTIVE attempt. */
  ghost predicate LookedAt(st: State, bill: nat, listed: Option<seq<ProviderPayment>>, today: Date, now: int,
                           st': State) {
    && (forall x :: OpenAt(st.attempts, x, bill) && st.attempts[x].status.Active? ==>
          ReconciledAs(st, x, listed, today, now, st'))
    && ((forall x :: OpenAt(st.attempts, x, bill) ==> !st.attempts[x].status.Active?) ==> st' == st)
  }

  /** The open attempt still asks for what is due and has three minutes left. */
  predicate KeepsOpen(row: Attempt, due: int, now: int) { row.amount == due && row.expiresAt - now >= 180 }

  ghost predicate FreshReplied(a: nat, answer: OrderAnswer, outcome: Outcome) {
    if (answer.OrderReady? || answer.OrderTaken?) && answer.session != "" then outcome == AttemptIs(a)
    else outcome == Rejected(if answer.OrderRefused? then ProviderRejected
                             else if answer.OrderUnknown? || answer == OrderTaken("", false) then ProviderUnavailable
                             else PaymentInProgress)
  }

  /** When a request hands out an attempt and which: for an issued INR bill, the open attempt that is kept if it is
      payable already or the provider names its session; without one, the new attempt if the provider names a
      session for it. */
  ghost predicate CheckoutReplied(st: State, bill: nat, now: int, answer: OrderAnswer, outcome: Outcome) {
    if bill >= |st.book.bills| then outcome == Rejected(NoSuchBill)
    else
      var b := st.book.bills[bill];
      if !IsOpen(b.status) then outcome == Rejected(NotPayable)
      else if b.currency != "INR" then outcome == Rejected(CurrencyNotSupported)
      else
        && (forall x :: OpenAt(st.attempts, x, bill) && KeepsOpen(st.attempts[x], b.total - b.paid, now) ==>
              OrderReplied(x, st.attempts[x], answer, outcome))
        && ((forall x :: OpenAt(st.attempts, x, bill) ==> !KeepsOpen(st.attempts[x], b.total - b.paid, now)) ==>
              FreshReplied(|st.attempts|, answer, outcome))
  }

  /** What a refund must leave: a capture kept for refund is pending, or done if the provider says so, with the
      provider's word kept; every other attempt and the ledger stay as they were. */
  ghost predicate RefundedAs(st: State, a: nat, answer: Option<string>, st': State, outcome: Outcome)
    requires a < |st.attempts|
  {
    var row := st.attempts[a];
    if row.status.Refunded? then st' == st && outcome == AlreadyRefunded
    else if !row.status.Unapplied? && !row.status.RefundPending? then st' == st && outcome == RefundNotAllowed
    else
      var status := if answer == Some("SUCCESS") then Refunded else RefundPending;
      && outcome == StepDone
      && st'.attempts == st.attempts[a := row.(status := status, refundStatus := answer.GetOr(row.refundStatus))]
      && st'.book == st.book && st'.requested == st.requested + {a}
  }

  /** A checkout handed to the browser: open, with a session, for its bill, asking for what is due. */
  ghost predicate Payable(st: State, a: nat, bill: nat) {
    && a < |st.attempts| && bill < |st.book.bills|
    && var row, b := st.attempts[a], st.book.bills[bill];
       && row.bill == bill && row.status.Active? && row.session != ""
       && IsOpen(b.status) && row.amount == b.total - b.paid > 0
  }

  class OnlinePaymentService {
    const ledger: PropertyLedger
    var attempts: seq<Attempt>
    ghost var requested: set<nat>

    ghost function Snapshot(): State
      reads this, ledger
    {
      State(ledger.Rows(), attempts, requested)
    }

    constructor (ledger: PropertyLedger)
      requires ledger.Rows() == EMPTY
      ensures this.ledger == ledger && Snapshot() == INITIAL && Safe(Snapshot())
    {
      this.ledger := ledger;
      attempts, requested := [], {};
      new;
      InitialIsSafe();
    }

    /** `attempt.save()` under the table's unique constraints. */
    method SaveAttempt(a: nat, row: Attempt) returns (saved: bool)
      requires a < |attempts|
      modifies this`attempts
      ensures saved <==> !SaveConflicts(old(attempts), a, row)
      ensures attempts == if saved then old(attempts)[a := row] else old(attempts)
    {
      if SaveConflicts(attempts, a, row) { return false; }
      attempts := attempts[a := row];
      saved := true;
    }

    // ---------- settlement ----------

    /** Idempotent and safe from every safe state; credits exactly the captures that fit. */
    method ApplyPayment(a: nat, p: ProviderPayment, today: Date) returns (outcome: Outcome)
      requires Safe(Snapshot())
      modifies this, ledger
      ensures Safe(Snapshot())
      ensures (Snapshot(), outcome) == Deliver(old(Snapshot()), a, p, today)
      ensures a < |old(attempts)| ==> old(attempts)[a].bill < |old(ledger.bills)|
      ensures outcome == CaptureAnswer(old(Snapshot()), a, p)
      ensures CaptureLeaves(old(Snapshot()), a, p, today, Snapshot())
    {
      hide Safe; hide Valid; hide Pay; hide Creditable; hide SaveConflicts; hide CaptureAnswer; hide CaptureLeaves;
      ghost var st := Snapshot();
      DeliverKeeps(st, a, p, today);
      DeliverExactly(st, a, p, today);
      if a < |attempts| { AttemptHasBill(st, a); }
      BookIsValid(st);
      if a >= |attempts| { return UnknownOrder; }
      var attempt := attempts[a];
      if !p.status.Success? {
        if IsOpenStatus(attempt.status) {
          attempt := attempt.(lastStatus := Some(p.status));
          attempts := attempts[a := attempt];
        }
        return StatusRecorded;
      }
      if attempt.status.Succeeded? {
        return if attempt.providerPaymentId == p.id then AlreadySettled else DuplicateCapture;
      }
      if attempt.status.Unapplied? || attempt.status.RefundPending? || attempt.status.Refunded? {
        return AlreadyUnapplied;
      }
      attempt := attempt.(providerPaymentId := p.id);
      attempt := attempt.(lastStatus := Some(Success));
      if p.currency != attempt.currency || p.amount != attempt.amount {
        outcome := Unapply(a, attempt, AmountMismatch);
        return;
      }
      outcome := RecordCaptured(a, attempt, today);
    }

    /** The savepoint around `PaymentService.record`, and the rollback of both when the attempt row conflicts. */
    method RecordCaptured(a: nat, captured: Attempt, today: Date) returns (outcome: Outcome)
      requires Valid(ledger.Rows()) && a < |attempts| && captured.bill < |ledger.bills|
      modifies this`attempts, ledger
      ensures var tenant, reference :=
                old(ledger.bills)[captured.bill].tenant, CashfreeReference(captured.providerPaymentId);
              var (book, reply) := Pay(old(ledger.Rows()), tenant, captured.bill, captured.amount,
                                       today, today, Online, reference, OnlineKey(a));
              match reply
              case PaymentIs(id, _) =>
                var row := captured.(status := Succeeded, payment := Some(id));
                if SaveConflicts(old(attempts), a, row)
                then attempts == old(attempts) && ledger.Rows() == old(ledger.Rows())
                    && outcome == DuplicateProviderPayment
                else attempts == old(attempts)[a := row] && ledger.Rows() == book && outcome == SettledNow
              case Refused(code) =>
                var row := captured.(status := Unapplied,
                                     reason := Some(if code == BillNotPayable then BillAlreadySettled
                                         else RefusedWith(code)));
                && ledger.Rows() == old(ledger.Rows())
                && if SaveConflicts(old(attempts), a, row) then attempts == old(attempts)
                      && outcome == DuplicateProviderPayment
                   else attempts == old(attempts)[a := row] && outcome == UnappliedNow
              case Done => false
    {
      hide Valid; hide Pay; hide Creditable; hide SaveConflicts;
      var attempt := captured;
      var savepoint := ledger.Rows();
      var tenant := ledger.bills[attempt.bill].tenant;
      var reference := CashfreeReference(attempt.providerPaymentId);
      PayReplies(savepoint, tenant, attempt.bill, attempt.amount, today, today, Online, reference, OnlineKey(a));
      var reply := ledger.RecordPayment(tenant, attempt.bill, attempt.amount, today, today, Online, reference,
          OnlineKey(a));
      match reply {
        case Refused(code) =>
          outcome := Unapply(a, attempt, if code == BillNotPayable then BillAlreadySettled else RefusedWith(code));
        case PaymentIs(id, created) =>
          attempt := attempt.(status := Succeeded);
          attempt := attempt.(payment := Some(id));
          var saved := SaveAttempt(a, attempt);
          if saved {
            outcome := SettledNow;
          } else {
            ledger.Restore(savepoint);
            outcome := DuplicateProviderPayment;
          }
      }
    }

    method Unapply(a: nat, captured: Attempt, reason: Reason) returns (outcome: Outcome)
      requires a < |attempts|
      modifies this`attempts
      ensures var row := captured.(status := Unapplied, reason := Some(reason));
              if SaveConflicts(old(attempts), a, row) then attempts == old(attempts)
                  && outcome == DuplicateProviderPayment
              else attempts == old(attempts)[a := row] && outcome == UnappliedNow
    {
      hide SaveConflicts;
      var attempt := captured.(status := Unapplied);
      attempt := attempt.(reason := Some(reason));
      var saved := SaveAttempt(a, attempt);
      outcome := if saved then UnappliedNow else DuplicateProviderPayment;
    }

    // ---------- reconciliation ----------

    /** Polls the provider for an open attempt; an outage (no answer) leaves it as it was. */
    method Reconcile(a: nat, answer: Option<seq<ProviderPayment>>, today: Date, now: int)
      requires Safe(Snapshot()) && a < |attempts|
      modifies this, ledger
      ensures Safe(Snapshot())
      ensures var row := old(attempts)[a];
              var listed := if row.status.Active? then answer else Some([]);
              Snapshot() == if IsOpenStatus(row.status) && listed.Some?
                            then After(old(Snapshot()), ReconcileMoves(a, listed.value, today, now))
                                else old(Snapshot())
      ensures ReconciledAs(old(Snapshot()), a, answer, today, now, Snapshot())
    {
      hide Safe; hide Deliver; hide Fits; hide After; hide Keep; hide ReconciledAs; hide ReconcileMoves;
      ReconcileExactly(Snapshot(), a, answer, today, now);
      if !IsOpenStatus(attempts[a].status) { return; }
      var payments := [];
      if attempts[a].status.Active? {
        if answer.None? { return; }
        payments := answer.value;
      }
      ghost var st := Snapshot();
      MovesOfReconcile(a, payments, today, now);
      var successes := Keep(payments, IsSuccess());
      ghost var moves := Deliveries(a, successes, today);
      AfterNone(st, moves);
      for k := 0 to |successes|
        invariant Safe(Snapshot()) && Snapshot() == After(st, moves[..k])
      {
        var outcome := ApplyPayment(a, successes[k], today);
        assert moves[..k + 1] == moves[..k] + [moves[k]];
        AfterConcat(st, moves[..k], [moves[k]]);
        AfterOne(After(st, moves[..k]), moves[k]);
      }
      assert moves[..|successes|] == moves;
      if successes == [] {
        assert Snapshot() == st by { AfterNone(st, moves); }
        KeepNone(payments);
        AfterOne(st, PollOp(a, payments, now));
        StepIsSafe(st, PollOp(a, payments, now));
        CloseIfLapsed(a, payments, now);
      }
    }

    /** The closing transaction, reached only when no listed payment succeeded. */
    method CloseIfLapsed(a: nat, payments: seq<ProviderPayment>, now: int)
      requires a < |attempts| && Find(payments, IsSuccess()).None?
      modifies this`attempts
      ensures Snapshot() == Poll(old(Snapshot()), a, payments, now).0
    {
      var pending := Find(payments, IsPending()).Some?;
      var attempt := attempts[a];
      if IsOpenStatus(attempt.status) {
        if payments != [] { attempt := attempt.(lastStatus := Some(payments[|payments| - 1].status)); }
        if !pending && now >= attempt.expiresAt { attempt := attempt.(status := Expired); }
        attempts := attempts[a := attempt];
      }
    }

    // ---------- starting a checkout ----------

    /** The locked transaction of `start`: reuse, replace or create the bill's one open attempt. */
    method OpenAttempt(bill: nat, now: int, ttl: int) returns (outcome: Outcome)
      requires Safe(Snapshot())
      modifies this`attempts
      ensures Safe(Snapshot())
      ensures (Snapshot(), outcome) == Start(old(Snapshot()), bill, now, ttl)
      ensures StartedAs(old(Snapshot()), bill, now, ttl, Snapshot(), outcome)
    {
      hide Safe; hide ReuseOrReplace; hide NewAttempt; hide StartedAs;
      StartKeeps(Snapshot(), bill, now, ttl);
      if bill >= |ledger.bills| { return Rejected(NoSuchBill); }
      var locked := ledger.bills[bill];
      if !IsOpen(locked.status) { return Rejected(NotPayable); }
      if locked.currency != SUPPORTED_CURRENCY { return Rejected(CurrencyNotSupported); }
      var due := locked.total - locked.paid;
      if due <= 0 { return Rejected(NotPayable); }
      outcome := ReuseOrReplaceAttempt(NewAttempt(bill, due, locked.currency, now, ttl), now);
    }

    method ReuseOrReplaceAttempt(row: Attempt, now: int) returns (outcome: Outcome)
      modifies this`attempts
      ensures (Snapshot(), outcome) == ReuseOrReplace(old(Snapshot()), row, now)
    {
      hide Insert; hide Find;
      var open := Find(attempts, OpenFor(row.bill));
      if open.None? {
        outcome := InsertAttempt(row, attempts);
        return;
      }
      var attempt := attempts[open.value];
      if attempt.amount == row.amount && attempt.expiresAt - now >= MIN_REMAINING { return AttemptIs(open.value); }
      var savepoint := attempts;
      attempt := attempt.(status := Expired);
      attempts := attempts[open.value := attempt];
      outcome := InsertAttempt(row, savepoint);
    }

    /** The insert under the one-open-attempt constraint; on a violation the transaction rolls back and the
        request uses the attempt that won. */
    method InsertAttempt(row: Attempt, savepoint: seq<Attempt>) returns (outcome: Outcome)
      modifies this`attempts
      ensures (Snapshot(), outcome) == Insert(old(Snapshot()), row, old(Snapshot()).(attempts := savepoint))
    {
      if Find(attempts, OpenFor(row.bill)).Some? {
        attempts := savepoint;
        var winner := Find(attempts, OpenFor(row.bill));
        return if winner.Some? then AttemptIs(winner.value) else Rejected(PaymentInProgress);
      }
      outcome := AttemptIs(|attempts|);
      attempts := attempts + [row];
    }

    /** Every answer of the provider leads to at most one write, and only while the attempt is CREATED. */
    method EnsureProviderOrder(a: nat, answer: OrderAnswer, clock: int) returns (outcome: Outcome)
      requires Safe(Snapshot()) && a < |attempts|
      modifies this`attempts
      ensures Safe(Snapshot()) && |attempts| == |old(attempts)|
      ensures Snapshot() == After(old(Snapshot()), OrderMoves(a, old(attempts)[a], answer, clock))
      ensures outcome == AttemptIs(a) || outcome.Rejected?
      ensures outcome.AttemptIs? <==> attempts[a].status.Active? && attempts[a].session != ""
      ensures OrderReplied(a, old(attempts)[a], answer, outcome)
      ensures attempts[a].bill == old(attempts)[a].bill && attempts[a].amount == old(attempts)[a].amount
      ensures attempts == old(attempts)[a := attempts[a]] && unchanged(ledger) && requested == old(requested)
      ensures OrderAnswered(old(attempts)[a], attempts[a], answer, clock)
    {
      hide Safe; hide After;
      ghost var st := Snapshot();
      ghost var moves := OrderMoves(a, attempts[a], answer, clock);
      if moves != [] {
        AfterOne(st, moves[0]);
        OrderStepKeeps(st, moves[0]);
      } else {
        AfterNone(st, moves);
      }
      if attempts[a].status.Active? && attempts[a].session != "" { return AttemptIs(a); }
      var session := "";
      match answer {
        case OrderReady(s) => session := s;
        case OrderTaken(s, inProgress) =>
          if s == "" {
            if inProgress {
              if clock - attempts[a].createdAt > STUCK_CREATE_AFTER && attempts[a].status.Created? {
                attempts := attempts[a := attempts[a].(status := Expired)];
              }
              return Rejected(PaymentInProgress);
            }
            return Rejected(ProviderUnavailable);
          }
          session := s;
        case OrderRefused =>
          if attempts[a].status.Created? { attempts := attempts[a := attempts[a].(status := Failed)]; }
          return Rejected(ProviderRejected);
        case OrderUnknown => return Rejected(ProviderUnavailable);
      }
      if attempts[a].status.Created? {
        attempts := attempts[a := attempts[a].(status := Active, session := session)];
      }
      outcome := if attempts[a].status.Active? && attempts[a].session != "" then AttemptIs(a)
          else Rejected(PaymentInProgress);
    }

    /** The provider is asked about the bill's ACTIVE attempt before anything is started. */
    method LookForPayment(bill: nat, listed: Option<seq<ProviderPayment>>, today: Date, now: int)
        returns (ghost moves: seq<Move>)
      requires Safe(Snapshot())
      modifies this, ledger
      ensures Safe(Snapshot()) && Snapshot() == After(old(Snapshot()), moves)
      ensures forall k :: 0 <= k < |moves| ==> Honest(moves[k])
      ensures LookedAt(old(Snapshot()), bill, listed, today, now, Snapshot())
    {
      hide Safe; hide After; hide ReconcileMoves; hide Find; hide OpenFor; hide OpenAt; hide ReconciledAs;
      hide OneOpenPerBill;
      ghost var st := Snapshot();
      moves := [];
      AfterNone(st, moves);
      SafeParts(st);
      OpenIsFound(st, bill);
      var existing := Find(attempts, OpenFor(bill));
      if existing.Some? && attempts[existing.value].status.Active? {
        Reconcile(existing.value, listed, today, now);
        if listed.Some? {
          moves := ReconcileMoves(existing.value, listed.value, today, now);
          ReconcileIsHonest(existing.value, listed.value, today, now);
        }
      }
    }

    /** A whole `start` request is a run of protocol steps, and what it hands to the browser is payable. */
    method StartCheckout(bill: nat, listed: Option<seq<ProviderPayment>>, answer: OrderAnswer,
                         today: Date, now: int, clock: int, ttl: int)
        returns (outcome: Outcome, ghost moves: seq<Move>, ghost reconciled: State)
      requires Safe(Snapshot())
      modifies this, ledger
      ensures Safe(Snapshot())
      ensures Snapshot() == After(old(Snapshot()), moves) && forall k :: 0 <= k < |moves| ==> Honest(moves[k])
      ensures outcome.AttemptIs? ==> Payable(Snapshot(), outcome.id, bill)
      ensures LookedAt(old(Snapshot()), bill, listed, today, now, reconciled)
      ensures CheckoutReplied(reconciled, bill, now, answer, outcome)
    {
      hide Safe; hide After; hide Start; hide OrderMoves; hide Payable; hide LookedAt; hide CheckoutReplied;
      hide StartedAs; hide OrderReplied; hide OrderAnswered; hide OneOpenPerBill;
      ghost var st := Snapshot();
      moves := LookForPayment(bill, listed, today, now);
      reconciled := Snapshot();
      StartAttempts(reconciled, bill, now, ttl);
      outcome := OpenAttempt(bill, now, ttl);
      AfterOne(reconciled, StartOp(bill, now, ttl));
      AfterConcat(st, moves, [StartOp(bill, now, ttl)]);
      moves := moves + [StartOp(bill, now, ttl)];
      ghost var ready := Snapshot();
      SafeParts(reconciled);
      if !outcome.AttemptIs? {
        RepliesToStart(reconciled, bill, now, ttl, ready, outcome, answer, outcome);
        return;
      }
      var a := outcome.id;
      ghost var order := OrderMoves(a, attempts[a], answer, clock);
      OrderIsHonest(a, attempts[a], answer, clock);
      outcome := EnsureProviderOrder(a, answer, clock);
      AfterConcat(st, moves, order);
      moves := moves + order;
      RepliesToStart(reconciled, bill, now, ttl, ready, AttemptIs(a), answer, outcome);
      if outcome.AttemptIs? { OrderMakesPayable(reconciled, ready, Snapshot(), a, bill, now, ttl, order); }
    }

    // ---------- refunds ----------

    /** Both transactions of `refund` with the provider's answer in between (none: outage or refusal). */
    method RefundAttempt(a: nat, answer: Option<string>) returns (outcome: Outcome)
      requires Safe(Snapshot()) && a < |attempts|
      modifies this
      ensures Safe(Snapshot()) && |attempts| == |old(attempts)|
      ensures Snapshot() == After(old(Snapshot()), RefundMoves(a, old(attempts)[a], answer))
      ensures var was := old(attempts)[a].status;
              && (outcome.RefundNotAllowed? <==> !was.Unapplied? && !was.RefundPending? && !was.Refunded?)
              && (attempts[a].status.Refunded? <==>
                    was.Refunded? || (answer == Some("SUCCESS") && !outcome.RefundNotAllowed?))
      ensures RefundedAs(old(Snapshot()), a, answer, Snapshot(), outcome)
    {
      hide Safe; hide After; hide Find; hide Deliver; hide Start; hide Poll; hide Ledger.Step;
      ghost var st := Snapshot();
      ghost var request := RequestRefundOp(a);
      RefundStepKeeps(st, request);
      AfterNone(st, []);
      var locked := attempts[a];
      if locked.status.Refunded? { return AlreadyRefunded; }
      if !locked.status.Unapplied? && !locked.status.RefundPending? { return RefundNotAllowed; }
      locked := locked.(status := RefundPending);
      attempts := attempts[a := locked];
      requested := requested + {a};
      ghost var pending := Snapshot();
      AfterOne(st, request);
      outcome := StepDone;
      if answer.Some? {
        ghost var finish := FinishRefundOp(a, answer.value);
        RefundStepKeeps(pending, finish);
        AfterConcat(st, [request], [finish]);
        assert [request] + [finish] == [request, finish];
        AfterOne(pending, finish);
        locked := attempts[a];
        locked := locked.(refundStatus := answer.value);
        if answer.value == "SUCCESS" && !locked.status.Refunded? { locked := locked.(status := Refunded); }
        attempts := attempts[a := locked];
      }
    }
  }

  lemma ReconcileIsHonest(a: nat, payments: seq<ProviderPayment>, today: Date, now: int)
    ensures forall k :: 0 <= k < |ReconcileMoves(a, payments, today, now)| ==>
        Honest(ReconcileMoves(a, payments, today, now)[k])
  {
    hide Keep;
  }

  lemma StartAttempts(st: State, bill: nat, now: int, ttl: int)
    requires Safe(st)
    ensures var (st', outcome) := Start(st, bill, now, ttl);
            (outcome.AttemptIs? ==> outcome.id < |st'.attempts|) && (outcome.AttemptIs? || outcome.Rejected?)
  {
    hide Safe; hide Start; hide StartedAs;
    StartKeeps(st, bill, now, ttl);
    StartReplies(st, bill, now, ttl);
  }

  lemma StartReplies(st: State, bill: nat, now: int, ttl: int)
    ensures Start(st, bill, now, ttl).1.AttemptIs? || Start(st, bill, now, ttl).1.Rejected?
  {
    hide Find;
  }

  /** The answer to the whole request follows from the row the locked transaction chose. */
  lemma RepliesToStart(st: State, bill: nat, now: int, ttl: int, ready: State, chosen: Outcome, answer: OrderAnswer,
                       outcome: Outcome)
    requires OneOpenPerBill(st.attempts) && StartedAs(st, bill, now, ttl, ready, chosen)
    requires chosen.Rejected? || chosen.AttemptIs?
    requires chosen.Rejected? ==> outcome == chosen
    requires chosen.AttemptIs? ==> chosen.id < |ready.attempts| &&
                                   OrderReplied(chosen.id, ready.attempts[chosen.id], answer, outcome)
    ensures CheckoutReplied(st, bill, now, answer, outcome)
  {
    hide OneOpenPerBill; hide OpenAt; hide OrderReplied; hide FreshReplied; hide Find; hide OpenFor; hide KeepsOpen;
    hide StartedAs;
    RefusedAlike(st, bill, now, ttl, ready, chosen);
    if bill < |st.book.bills| && IsOpen(st.book.bills[bill].status) && st.book.bills[bill].currency == "INR" {
      OpenIsFound(st, bill);
      var due, n := st.book.bills[bill].total - st.book.bills[bill].paid, |st.attempts|;
      var open := Find(st.attempts, OpenFor(bill));
      if open.Some? && KeepsOpen(st.attempts[open.value], due, now) {
        KeptIsChosen(st, bill, now, ttl, ready, chosen, open.value);
      } else {
        forall x | OpenAt(st.attempts, x, bill) ensures !KeepsOpen(st.attempts[x], due, now) {}
        NewIsChosen(st, bill, now, ttl, ready, chosen, open);
        SameReply(n, ready.attempts[n], answer, outcome);
      }
    }
  }

  lemma RefusedAlike(st: State, bill: nat, now: int, ttl: int, ready: State, chosen: Outcome)
    requires StartedAs(st, bill, now, ttl, ready, chosen)
    ensures bill >= |st.book.bills| ==> chosen == Rejected(NoSuchBill)
    ensures bill < |st.book.bills| && !IsOpen(st.book.bills[bill].status) ==> chosen == Rejected(NotPayable)
    ensures bill < |st.book.bills| && IsOpen(st.book.bills[bill].status) && st.book.bills[bill].currency != "INR" ==>
              chosen == Rejected(CurrencyNotSupported)
  {
    hide OpenAt;
  }

  lemma KeptIsChosen(st: State, bill: nat, now: int, ttl: int, ready: State, chosen: Outcome, x: nat)
    requires StartedAs(st, bill, now, ttl, ready, chosen)
    requires bill < |st.book.bills| && IsOpen(st.book.bills[bill].status) && st.book.bills[bill].currency == "INR"
    requires OpenAt(st.attempts, x, bill)
    requires KeepsOpen(st.attempts[x], st.book.bills[bill].total - st.book.bills[bill].paid, now)
    ensures chosen == AttemptIs(x) && ready == st
  {
    hide OpenAt;
  }

  lemma NewIsChosen(st: State, bill: nat, now: int, ttl: int, ready: State, chosen: Outcome, open: Option<nat>)
    requires StartedAs(st, bill, now, ttl, ready, chosen)
    requires bill < |st.book.bills| && IsOpen(st.book.bills[bill].status) && st.book.bills[bill].currency == "INR"
    requires forall x :: OpenAt(st.attempts, x, bill) <==> open == Some(x)
    requires open.Some? ==>
               && open.value < |st.attempts|
               && !KeepsOpen(st.attempts[open.value], st.book.bills[bill].total - st.book.bills[bill].paid, now)
    ensures chosen == AttemptIs(|st.attempts|) && |ready.attempts| == |st.attempts| + 1
    ensures ready.attempts[|st.attempts|].status.Created?
  {
    hide OpenAt;
    assert open.Some? ==> OpenAt(st.attempts, open.value, bill);
  }

  lemma SameReply(a: nat, row: Attempt, answer: OrderAnswer, outcome: Outcome)
    requires OrderReplied(a, row, answer, outcome) && row.status.Created?
    ensures FreshReplied(a, answer, outcome)
  {
  }

  lemma OrderIsHonest(a: nat, row: Attempt, answer: OrderAnswer, clock: int)
    ensures forall k :: 0 <= k < |OrderMoves(a, row, answer, clock)| ==>
              Honest(OrderMoves(a, row, answer, clock)[k]) && !OrderMoves(a, row, answer, clock)[k].LedgerOp?
              && !OrderMoves(a, row, answer, clock)[k].DeliverOp?
  {
  }

  lemma {:induction false} BookUntouched(st: State, ops: seq<Move>)
    requires forall k :: 0 <= k < |ops| ==> !ops[k].LedgerOp? && !ops[k].DeliverOp?
    ensures After(st, ops).book == st.book
  {
    if ops != [] {
      BookUntouched(st, ops[..|ops| - 1]);
      hide Find;
    }
  }

  /** What `start` opened is what was due, and asking the provider for an order changes neither. */
  lemma OrderMakesPayable(st: State, ready: State, st': State, a: nat, bill: nat, now: int, ttl: int, order: seq<Move>)
    requires Safe(st) && (ready, AttemptIs(a)) == Start(st, bill, now, ttl)
    requires st' == After(ready, order)
    requires forall k :: 0 <= k < |order| ==> !order[k].LedgerOp? && !order[k].DeliverOp?
    requires a < |ready.attempts| == |st'.attempts|
    requires st'.attempts[a].bill == ready.attempts[a].bill && st'.attempts[a].amount == ready.attempts[a].amount
    requires st'.attempts[a].status.Active? && st'.attempts[a].session != ""
    ensures Payable(st', a, bill)
  {
    hide Safe; hide After; hide Start;
    StartKeeps(st, bill, now, ttl);
    DueIsPositive(st, bill);
    BookUntouched(ready, order);
    assert ready == Start(st, bill, now, ttl).0 && Start(st, bill, now, ttl).1 == AttemptIs(a);
    assert OpenFor(bill)(ready.attempts[a]);
  }

  lemma BookIsValid(st: State)
    requires Safe(st)
    ensures Valid(st.book)
  {
  }

  lemma AttemptHasBill(st: State, a: nat)
    requires Safe(st) && a < |st.attempts|
    ensures st.attempts[a].bill < |st.book.bills|
  {
    assert AttemptOk(st, a);
  }

  lemma PayReplies(book: Book, tenant: nat, i: nat, amount: int, date: Date, today: Date,
                   means: Means, reference: Reference, key: Key)
    ensures var (book', reply) := Pay(book, tenant, i, amount, date, today, means, reference, key);
            !reply.Done? && (reply.Refused? ==> book' == book)
  {
    hide Credit;
  }
}
