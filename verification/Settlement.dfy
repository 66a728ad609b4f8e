/** Settlement safety: what every interleaving of checkouts, webhooks, sweeps, refunds and owner
    actions keeps. */
module Settlement {
  import opened Tables
  import opened Calendar
  import opened Ledger
  import opened LedgerInvariant
  import opened LedgerHistory
  import opened Checkout

  /** Statuses from which a capture may still be settled. */
  predicate Unsettled(s: Status) { s.Created? || s.Active? || s.Expired? || s.Failed? }

  /** The payment a settled attempt points at: online, completed, of its own bill, amount and capture. */
  ghost predicate Linked(st: State, a: nat)
    requires a < |st.attempts|
  {
    var row := st.attempts[a];
    && row.payment.Some? && row.payment.value < |st.book.payments|
    && var p := st.book.payments[row.payment.value];
       && p.bill == row.bill && p.amount == row.amount && p.means.Online? && p.status.Completed?
       && p.key == OnlineKey(a) && p.reference == CashfreeReference(row.providerPaymentId)
  }

  ghost predicate AttemptOk(st: State, a: nat)
    requires a < |st.attempts|
  {
    var row := st.attempts[a];
    && row.bill < |st.book.bills| && row.amount > 0 && row.currency == st.book.bills[row.bill].currency
    && (Unsettled(row.status) ==> row.providerPaymentId == "")
    && (row.status.Succeeded? <==> row.payment.Some?)
    && (row.status.Succeeded? ==> Linked(st, a))
    && (a in st.requested ==> row.status.RefundPending? || row.status.Refunded?)
  }

  ghost predicate AttemptsOk(st: State) { forall a :: 0 <= a < |st.attempts| ==> AttemptOk(st, a) }

  /** Every payment recorded for a capture belongs to exactly the attempt named in its key. */
  ghost predicate CapturesBacked(st: State) {
    forall p :: 0 <= p < |st.book.payments| && st.book.payments[p].key.OnlineKey? ==>
      var n := st.book.payments[p].key.attempt;
      n < |st.attempts| && st.attempts[n].payment == Some(p)
  }

  ghost predicate OneOpenPerBill(attempts: seq<Attempt>) {
    forall a, b :: 0 <= a < b < |attempts| && attempts[a].bill == attempts[b].bill
      ==> !(IsOpenStatus(attempts[a].status) && IsOpenStatus(attempts[b].status))
  }

  ghost predicate ProviderIdsUnique(attempts: seq<Attempt>) {
    forall a, b :: 0 <= a < b < |attempts| && attempts[a].providerPaymentId != ""
      ==> attempts[a].providerPaymentId != attempts[b].providerPaymentId
  }

  function CreditedOnline(): Payment -> int { (p: Payment) => if p.key.OnlineKey? then p.amount else 0 }
  function SettledAmount(): Attempt -> int { (a: Attempt) => if a.status.Succeeded? then a.amount else 0 }

  /** Money credited to bills for captures equals the amounts of the settled attempts. */
  ghost predicate Conserved(st: State) {
    Sum(st.book.payments, CreditedOnline()) == Sum(st.attempts, SettledAmount())
  }

  ghost predicate Safe(st: State) {
    && Valid(st.book) && AttemptsOk(st) && CapturesBacked(st)
    && OneOpenPerBill(st.attempts) && ProviderIdsUnique(st.attempts) && Conserved(st)
    && (forall a :: a in st.requested ==> a < |st.attempts|)
  }

  /** What an attempt row relies on in the ledger. */
  ghost predicate BookGrows(book: Book, book': Book) {
    && |book.bills| <= |book'.bills| && |book.payments| <= |book'.payments|
    && (forall i :: 0 <= i < |book.bills| ==> book'.bills[i].currency == book.bills[i].currency)
    && (forall p :: 0 <= p < |book.payments| && book.payments[p].means.Online? ==>
          book'.payments[p] == book.payments[p])
  }

  lemma AttemptSurvives(st: State, st': State, b: nat)
    requires b < |st.attempts| && AttemptOk(st, b) && BookGrows(st.book, st'.book)
    requires b < |st'.attempts| && st'.attempts[b] == st.attempts[b] && (b in st'.requested <==> b in st.requested)
    ensures AttemptOk(st', b)
  {
  }

  // ---------- an attempt row changes, the book does not ----------

  /** A row update that neither settles nor unsettles anything. */
  lemma UpdateKeeps(st: State, a: nat, row: Attempt, requested: set<nat>)
    requires Safe(st) && a < |st.attempts|
    requires var was := st.attempts[a];
             && row.bill == was.bill && row.amount == was.amount && row.currency == was.currency
             && row.payment == was.payment
             && !was.status.Succeeded? && !row.status.Succeeded?
             && (Unsettled(row.status) ==> row.providerPaymentId == "")
             && (IsOpenStatus(row.status) ==> IsOpenStatus(was.status))
    requires requested <= st.requested + {a}
    requires a in requested ==> row.status.RefundPending? || row.status.Refunded?
    requires row.providerPaymentId == st.attempts[a].providerPaymentId || !SaveConflicts(st.attempts, a, row)
    ensures Safe(st.(attempts := st.attempts[a := row], requested := requested))
  {
    hide Valid; hide Sum;
    var st' := st.(attempts := st.attempts[a := row], requested := requested);
    SumUpdate(st.attempts, a, row, SettledAmount());
    assert AttemptsOk(st') by {
      forall b | 0 <= b < |st'.attempts| ensures AttemptOk(st', b) { assert AttemptOk(st, b); }
    }
    assert CapturesBacked(st');
    assert ProviderIdsUnique(st'.attempts);
  }

  lemma InsertKeeps(st: State, row: Attempt)
    requires Safe(st)
    requires row.bill < |st.book.bills| && row.amount > 0 && row.currency == st.book.bills[row.bill].currency
    requires row.status.Created? && row.providerPaymentId == "" && row.payment.None?
    requires forall b :: 0 <= b < |st.attempts| && st.attempts[b].bill == row.bill ==>
        !IsOpenStatus(st.attempts[b].status)
    ensures Safe(st.(attempts := st.attempts + [row]))
  {
    hide Valid; hide Sum;
    var st' := st.(attempts := st.attempts + [row]);
    SumAppend(st.attempts, row, SettledAmount());
    forall b | 0 <= b < |st'.attempts| ensures AttemptOk(st', b) {
      if b < |st.attempts| { assert AttemptOk(st, b); }
    }
    assert CapturesBacked(st');
  }

  // ---------- each step ----------

  lemma DueOfOpen(book: Book, bill: nat)
    requires Valid(book) && bill < |book.bills| && IsOpen(book.bills[bill].status)
    ensures book.bills[bill].total - book.bills[bill].paid > 0
  {
    hide Valid; hide ReadingsOk; hide TotalsOk;
    BillOfValid(book, bill);
  }

  lemma SafeParts(st: State)
    requires Safe(st)
    ensures Valid(st.book) && OneOpenPerBill(st.attempts)
  {
  }

  lemma DueIsPositive(st: State, bill: nat)
    requires Safe(st) && bill < |st.book.bills| && IsOpen(st.book.bills[bill].status)
    ensures st.book.bills[bill].total - st.book.bills[bill].paid > 0
  {
    BillOfValid(st.book, bill);
    hide Valid; hide ReadingsOk; hide TotalsOk;
  }

  lemma NoneOpen(attempts: seq<Attempt>, bill: nat)
    requires Find(attempts, OpenFor(bill)).None?
    ensures forall b :: 0 <= b < |attempts| && attempts[b].bill == bill ==> !IsOpenStatus(attempts[b].status)
  {
    assert forall b :: 0 <= b < |attempts| ==> !OpenFor(bill)(attempts[b]);
  }

  /** The answer to `start` is the one open attempt of the bill and asks for exactly what is due; because the
      bill row is locked, the insert never collides and the rollback branch is never taken. */
  lemma StartKeeps(st: State, bill: nat, now: int, ttl: int)
    requires Safe(st)
    ensures var (st', outcome) := Start(st, bill, now, ttl);
            && Safe(st') && st'.book == st.book && StartedAs(st, bill, now, ttl, st', outcome)
            && outcome != Rejected(PaymentInProgress)
            && (outcome.AttemptIs? <==> bill < |st.book.bills| && IsOpen(st.book.bills[bill].status)
                                        && st.book.bills[bill].currency == "INR")
            && (outcome.AttemptIs? ==>
                  && outcome.id < |st'.attempts| && OpenFor(bill)(st'.attempts[outcome.id])
                  && st'.attempts[outcome.id].expiresAt - now >= (if outcome.id == |st.attempts| then ttl else 180)
                  && st'.attempts[outcome.id].amount == st.book.bills[bill].total - st.book.bills[bill].paid)
  {
    hide Safe; hide Find; hide StartedAs; hide OneOpenPerBill; hide Valid;
    SafeParts(st);
    StartExactly(st, bill, now, ttl);
    if bill < |st.book.bills| && IsOpen(st.book.bills[bill].status)
        && st.book.bills[bill].currency == SUPPORTED_CURRENCY {
      DueIsPositive(st, bill);
      var b := st.book.bills[bill];
      var newRow := NewAttempt(bill, b.total - b.paid, b.currency, now, ttl);
      var open := Find(st.attempts, OpenFor(bill));
      if open.None? {
        NoneOpen(st.attempts, bill);
        InsertKeeps(st, newRow);
      } else if !Reusable(st.attempts[open.value], b.total - b.paid, now) {
        var a := open.value;
        UnsettledRow(st, a);
        var expired := st.attempts[a].(status := Expired);
        OthersClosed(st, a, bill, expired);
        NoneOpen(st.attempts[a := expired], bill);
        UpdateKeeps(st, a, expired, st.requested);
        InsertKeeps(WithAttempt(st, a, expired), newRow);
      }
    }
  }

  ghost predicate OpenAt(attempts: seq<Attempt>, x: int, bill: nat) {
    0 <= x < |attempts| && attempts[x].bill == bill && (attempts[x].status.Created? || attempts[x].status.Active?)
  }

  /** What `start` must answer and leave. Only an issued INR bill with something due gets an attempt. The bill's open
      attempt is kept when it asks for what is due and has three minutes left; if not, it alone expires. Unless one
      was kept, one row is added: for what is due, created now, expiring after the time to live. */
  ghost predicate StartedAs(st: State, bill: nat, now: int, ttl: int, st': State, outcome: Outcome) {
    if bill >= |st.book.bills| then st' == st && outcome == Rejected(NoSuchBill)
    else
      var b, n := st.book.bills[bill], |st.attempts|;
      var due := b.total - b.paid;
      var added := Attempt(bill, due, b.currency, Created, now, now + ttl, "", "", None, None, None, "");
      if !b.status.Published? && !b.status.PartiallyPaid? then st' == st && outcome == Rejected(NotPayable)
      else if b.currency != "INR" then st' == st && outcome == Rejected(CurrencyNotSupported)
      else
        && due > 0
        && (forall x :: OpenAt(st.attempts, x, bill) ==>
              var row := st.attempts[x];
              if row.amount == due && row.expiresAt - now >= 180 then st' == st && outcome == AttemptIs(x)
              else
                && st' == st.(attempts := st.attempts[x := row.(status := Expired)] + [added])
                && outcome == AttemptIs(n))
        && ((forall x :: !OpenAt(st.attempts, x, bill)) ==>
              st' == st.(attempts := st.attempts + [added]) && outcome == AttemptIs(n))
  }

  lemma StartExactly(st: State, bill: nat, now: int, ttl: int)
    requires Valid(st.book) && OneOpenPerBill(st.attempts)
    ensures StartedAs(st, bill, now, ttl, Start(st, bill, now, ttl).0, Start(st, bill, now, ttl).1)
  {
    hide Valid; hide Find; hide OpenAt; hide OneOpenPerBill;
    if bill < |st.book.bills| && IsOpen(st.book.bills[bill].status) {
      DueOfOpen(st.book, bill);
      OpenIsFound(st, bill);
      var open, due := Find(st.attempts, OpenFor(bill)), st.book.bills[bill].total - st.book.bills[bill].paid;
      if open.Some? && !Reusable(st.attempts[open.value], due, now) {
        OthersClosed(st, open.value, bill, st.attempts[open.value].(status := Expired));
      }
    }
  }

  /** The query finds the one open attempt of the bill, if there is one. */
  lemma OpenIsFound(st: State, bill: nat)
    requires OneOpenPerBill(st.attempts)
    ensures var open := Find(st.attempts, OpenFor(bill));
            forall x :: OpenAt(st.attempts, x, bill) <==> open == Some(x)
  {
    hide Find;
    var open := Find(st.attempts, OpenFor(bill));
    if open.Some? { assert OpenFor(bill)(st.attempts[open.value]); }
    forall x | OpenAt(st.attempts, x, bill) ensures open == Some(x) {
      assert OpenFor(bill)(st.attempts[x]);
      assert open.Some?;
    }
  }

  lemma OthersClosed(st: State, a: nat, bill: nat, row: Attempt)
    requires OneOpenPerBill(st.attempts) && a < |st.attempts| && OpenFor(bill)(st.attempts[a])
    requires !IsOpenStatus(row.status)
    ensures Find(st.attempts[a := row], OpenFor(bill)).None?
  {
    var rows := st.attempts[a := row];
    assert forall b :: 0 <= b < |rows| ==> !OpenFor(bill)(rows[b]);
  }

  lemma UnsettledRow(st: State, a: nat)
    requires Safe(st) && a < |st.attempts| && Unsettled(st.attempts[a].status)
    ensures st.attempts[a].providerPaymentId == "" && st.attempts[a].payment.None? && a !in st.requested
  {
    assert AttemptOk(st, a);
    hide Valid; hide Linked;
  }

  lemma OrderStepKeeps(st: State, op: Move)
    requires Safe(st) && (op.ActivateOp? || op.RejectOp? || op.GiveUpOp? || op.PollOp?)
    ensures Safe(Next(st, op).0) && Next(st, op).0.book == st.book
  {
    hide Safe; hide Find;
    var a := op.attempt;
    if a < |st.attempts| && IsOpenStatus(st.attempts[a].status) {
      UnsettledRow(st, a);
      var st' := Next(st, op).0;
      UpdateKeeps(st, a, st'.attempts[a], st.requested);
    }
  }

  lemma RefundStepKeeps(st: State, op: Move)
    requires Safe(st) && (op.RequestRefundOp? || op.FinishRefundOp?)
    ensures Safe(Next(st, op).0) && Next(st, op).0.book == st.book
  {
    var a, st' := op.attempt, Next(st, op).0;
    if a < |st.attempts| && st' != st {
      assert a in st.requested ==> st.attempts[a].status.RefundPending? || st.attempts[a].status.Refunded? by {
        assert AttemptOk(st, a);
      }
      hide Safe;
      UpdateKeeps(st, a, st'.attempts[a], st'.requested);
    }
  }

  /** Before an attempt settles, no payment carries its key. */
  lemma KeyIsFree(st: State, a: nat)
    requires Safe(st) && a < |st.attempts| && st.attempts[a].payment.None?
    ensures forall tenant :: Find(st.book.payments, HasKey(tenant, OnlineKey(a))).None?
  {
    assert forall p :: 0 <= p < |st.book.payments| ==> st.book.payments[p].key != OnlineKey(a);
    forall tenant, p | 0 <= p < |st.book.payments| ensures !HasKey(tenant, OnlineKey(a))(st.book.payments[p]) {}
  }

  /** What the ledger answers to a capture of an unsettled attempt. */
  lemma CaptureReply(st: State, a: nat, id: string, today: Date)
    requires Safe(st) && a < |st.attempts| && Unsettled(st.attempts[a].status)
    ensures AttemptOk(st, a)
    ensures var (book, reply) := RecordCapture(st, a, id, today);
            var row := st.attempts[a];
            var p := Payment(st.book.bills[row.bill].tenant, row.bill, row.amount, today, Online, Completed,
                             CashfreeReference(id), OnlineKey(a));
            && (reply == PaymentIs(|st.book.payments|, true) || reply.Refused?)
            && (reply.PaymentIs? <==> Creditable(st.book, row.bill, p))
            && (reply.PaymentIs? ==> book == Credit(st.book, row.bill, p))
            && (reply.Refused? ==> book == st.book)
  {
    assert AttemptOk(st, a);
    KeyIsFree(st, a);
    var row := st.attempts[a];
    var tenant := st.book.bills[row.bill].tenant;
    PayExactly(st.book, tenant, row.bill, row.amount, today, today, Online, CashfreeReference(id), OnlineKey(a));
    hide Safe; hide AttemptOk; hide Credit;
  }

  /** The step that settles: one payment is appended, the attempt points at it. */
  lemma SettleKeeps(st: State, a: nat, p: Payment, row: Attempt)
    requires Safe(st) && a < |st.attempts| && Unsettled(st.attempts[a].status)
    requires row == st.attempts[a].(status := Succeeded, payment := Some(|st.book.payments|),
                                    providerPaymentId := row.providerPaymentId, lastStatus := row.lastStatus)
    requires p.bill == row.bill && p.amount == row.amount && p.means.Online? && p.status.Completed?
    requires p.key == OnlineKey(a) && p.reference == CashfreeReference(row.providerPaymentId)
    requires Creditable(st.book, p.bill, p)
    requires !SaveConflicts(st.attempts, a, row)
    ensures Safe(State(Credit(st.book, p.bill, p), st.attempts[a := row], st.requested))
  {
    var st' := State(Credit(st.book, p.bill, p), st.attempts[a := row], st.requested);
    hide Valid; hide AttemptsOk; hide CapturesBacked; hide OneOpenPerBill; hide ProviderIdsUnique; hide Conserved;
    hide Creditable;
    CreditKeeps(st.book, p.bill, p);
    UnsettledRow(st, a);
    SettledAttemptsOk(st, a, p, row);
    SettledRows(st, a, p, row);
    SettledConserves(st, a, p, row);
    hide Credit; hide SaveConflicts;
  }

  lemma SettledAttemptsOk(st: State, a: nat, p: Payment, row: Attempt)
    requires AttemptsOk(st) && a < |st.attempts| && Unsettled(st.attempts[a].status)
    requires row == st.attempts[a].(status := Succeeded, payment := Some(|st.book.payments|),
                                    providerPaymentId := row.providerPaymentId, lastStatus := row.lastStatus)
    requires p.bill == row.bill && p.amount == row.amount && p.means.Online? && p.status.Completed?
    requires p.key == OnlineKey(a) && p.reference == CashfreeReference(row.providerPaymentId)
    requires p.bill < |st.book.bills|
    ensures AttemptsOk(State(Credit(st.book, p.bill, p), st.attempts[a := row], st.requested))
  {
    CreditAppends(st.book, p.bill, p);
    hide Credit;
    var st' := State(Credit(st.book, p.bill, p), st.attempts[a := row], st.requested);
    assert AttemptOk(st, a);
    forall b | 0 <= b < |st'.attempts| ensures AttemptOk(st', b) {
      if b != a { AttemptSurvives(st, st', b); }
    }
  }

  lemma SettledConserves(st: State, a: nat, p: Payment, row: Attempt)
    requires Conserved(st) && a < |st.attempts| && !st.attempts[a].status.Succeeded? && row.status.Succeeded?
    requires p.bill < |st.book.bills| && p.amount == row.amount && p.key.OnlineKey?
    ensures Conserved(State(Credit(st.book, p.bill, p), st.attempts[a := row], st.requested))
  {
    CreditAppends(st.book, p.bill, p);
    hide Credit; hide Sum;
    SumUpdate(st.attempts, a, row, SettledAmount());
    SumAppend(st.book.payments, p, CreditedOnline());
  }

  lemma SettledRows(st: State, a: nat, p: Payment, row: Attempt)
    requires CapturesBacked(st) && OneOpenPerBill(st.attempts) && ProviderIdsUnique(st.attempts)
    requires a < |st.attempts| && st.attempts[a].payment.None? && p.key == OnlineKey(a)
    requires row == st.attempts[a].(status := Succeeded, payment := Some(|st.book.payments|),
                                    providerPaymentId := row.providerPaymentId, lastStatus := row.lastStatus)
    requires p.bill < |st.book.bills| && !SaveConflicts(st.attempts, a, row)
    ensures CapturesBacked(State(Credit(st.book, p.bill, p), st.attempts[a := row], st.requested))
    ensures OneOpenPerBill(st.attempts[a := row]) && ProviderIdsUnique(st.attempts[a := row])
  {
    CreditAppends(st.book, p.bill, p);
    hide Credit;
  }

  lemma CreditAppends(book: Book, i: nat, p: Payment)
    requires i < |book.bills|
    ensures Credit(book, i, p).payments == book.payments + [p]
    ensures |Credit(book, i, p).bills| == |book.bills|
    ensures forall j :: 0 <= j < |book.bills| ==> Credit(book, i, p).bills[j].currency == book.bills[j].currency
  {
  }

  lemma NewLinkIsFree(st: State, a: nat, row: Attempt)
    requires Safe(st) && a < |st.attempts| && row.payment == Some(|st.book.payments|)
    ensures SaveConflicts(st.attempts, a, row) <==>
              exists j :: 0 <= j < |st.attempts| && j != a
                          && row.providerPaymentId != "" && st.attempts[j].providerPaymentId == row.providerPaymentId
  {
    forall j | 0 <= j < |st.attempts| ensures st.attempts[j].payment != row.payment { assert AttemptOk(st, j); }
  }

  lemma DeliverKeeps(st: State, a: nat, p: ProviderPayment, today: Date)
    requires Safe(st)
    ensures Safe(Deliver(st, a, p, today).0)
  {
    hide Safe; hide RecordCapture; hide Credit; hide Creditable;
    if a < |st.attempts| && Unsettled(st.attempts[a].status) {
      var row := st.attempts[a];
      var (st', outcome) := Deliver(st, a, p, today);
      UnsettledRow(st, a);
      if !p.status.Success? {
        if IsOpenStatus(row.status) { UpdateKeeps(st, a, row.(lastStatus := Some(p.status)), st.requested); }
      } else {
        CaptureReply(st, a, p.id, today);
        if outcome.UnappliedNow? {
          UpdateKeeps(st, a, st'.attempts[a], st.requested);
        } else if outcome.SettledNow? {
          SettleKeeps(st, a, Payment(st.book.bills[row.bill].tenant, row.bill, row.amount, today, Online, Completed,
                                     CashfreeReference(p.id), OnlineKey(a)), st'.attempts[a]);
        }
      }
    }
  }

  // ---------- owner actions ----------

  /** How a ledger step changes the payment table. */
  lemma PaymentsAfter(book: Book, op: Ledger.Op)
    ensures var was, now := book.payments, Ledger.Step(book, op).0.payments;
            || now == was
            || (op.PayOp? && |now| == |was| + 1 && now == was + [now[|was|]] && now[|was|].key == op.key)
            || (op.VoidOp? && op.payment < |was| && now == was[op.payment := was[op.payment].(status := Voided)])
  {
    hide EditOf; hide Sum; hide GeneratedLines; hide SettleStatus;
  }

  lemma LedgerStepKeeps(st: State, op: Ledger.Op)
    requires Safe(st) && Honest(LedgerOp(op))
    ensures Safe(Next(st, LedgerOp(op)).0)
  {
    var st' := Next(st, LedgerOp(op)).0;
    StepKeeps(st.book, op);
    StepContinues(st.book, op);
    PaymentsAfter(st.book, op);
    hide Valid; hide Ledger.Step; hide AttemptsOk; hide CapturesBacked; hide OneOpenPerBill; hide ProviderIdsUnique;
    hide Conserved;
    assert AttemptsOk(st') by { StillOk(st, st'); }
    assert CapturesBacked(st') by { BackedByHonesty(st, st', op); }
    assert Conserved(st') by { ConservedByHonesty(st, st', op); }
  }

  lemma StillOk(st: State, st': State)
    requires AttemptsOk(st) && Continues(st.book, st'.book) && st'.attempts == st.attempts
    requires st'.requested == st.requested
    ensures AttemptsOk(st')
  {
    hide AttemptOk;
    forall b | 0 <= b < |st'.attempts| ensures AttemptOk(st', b) { AttemptSurvives(st, st', b); }
  }

  lemma ConservedByHonesty(st: State, st': State, op: Ledger.Op)
    requires Conserved(st) && st'.attempts == st.attempts
    requires op.PayOp? ==> !op.key.OnlineKey?
    requires var was, now := st.book.payments, st'.book.payments;
            || now == was
            || (op.PayOp? && |now| == |was| + 1 && now == was + [now[|was|]] && now[|was|].key == op.key)
            || (op.VoidOp? && op.payment < |was| && now == was[op.payment := was[op.payment].(status := Voided)])
    ensures Conserved(st')
  {
    hide Sum;
    var was, now := st.book.payments, st'.book.payments;
    if op.PayOp? && now != was { SumAppend(was, now[|was|], CreditedOnline()); }
    if op.VoidOp? && now != was { SumUpdate(was, op.payment, was[op.payment].(status := Voided), CreditedOnline()); }
  }

  lemma BackedByHonesty(st: State, st': State, op: Ledger.Op)
    requires CapturesBacked(st) && st'.attempts == st.attempts
    requires op.PayOp? ==> !op.key.OnlineKey?
    requires var was, now := st.book.payments, st'.book.payments;
            || now == was
            || (op.PayOp? && |now| == |was| + 1 && now == was + [now[|was|]] && now[|was|].key == op.key)
            || (op.VoidOp? && op.payment < |was| && now == was[op.payment := was[op.payment].(status := Voided)])
    ensures CapturesBacked(st')
  {
  }

  // ---------- every interleaving ----------

  lemma StepIsSafe(st: State, op: Move)
    requires Safe(st) && Honest(op)
    ensures Safe(Next(st, op).0)
  {
    hide Safe; hide Start; hide Deliver;
    match op
    case LedgerOp(o) => LedgerStepKeeps(st, o);
    case StartOp(bill, now, ttl) => StartKeeps(st, bill, now, ttl);
    case DeliverOp(a, p, today) => DeliverKeeps(st, a, p, today);
    case RequestRefundOp(a) => RefundStepKeeps(st, op);
    case FinishRefundOp(a, status) => RefundStepKeeps(st, op);
    case _ => OrderStepKeeps(st, op);
  }

  /** Settlement safety over every interleaving of starts, provider answers, webhooks, sweeps, expiries,
      refunds and owner actions: at most one open attempt per bill, each provider payment settles at most
      one attempt, an attempt is settled if and only if it is linked to a completed online payment of its own
      bill and amount, captures credited equal attempts settled, and the ledger stays valid. */
  lemma {:induction false} RunsAreSafe(ops: seq<Move>)
    requires forall k :: 0 <= k < |ops| ==> Honest(ops[k])
    ensures Safe(After(INITIAL, ops))
  {
    hide Safe; hide Next;
    if ops == [] {
      InitialIsSafe();
    } else {
      RunsAreSafe(ops[..|ops| - 1]);
      StepIsSafe(After(INITIAL, ops[..|ops| - 1]), ops[|ops| - 1]);
    }
  }

  lemma InitialIsSafe()
    ensures Safe(INITIAL)
  {
    EmptyIsValid();
  }
}
