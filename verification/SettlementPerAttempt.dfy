/** The settlement guarantee of one attempt over arbitrary runs, whatever keys owners send: it holds exactly for
    the attempts whose own key no owner request of their workspace had used. */
module SettlementPerAttempt {
  import opened Tables
  import opened Calendar
  import opened Ledger
  import opened LedgerInvariant
  import opened LedgerHistory
  import opened Checkout
  import opened Settlement
  import opened SettlementHistory

  // ---------- what needs no assumption on keys ----------

  ghost predicate RowSound(st: State, a: nat)
    requires a < |st.attempts|
  {
    var row := st.attempts[a];
    && row.bill < |st.book.bills|
    && (row.status.Succeeded? <==> row.payment.Some?)
    && (row.payment.Some? ==> row.payment.value < |st.book.payments|)
  }

  ghost predicate Sound(st: State) {
    && Valid(st.book) && (forall a :: 0 <= a < |st.attempts| ==> RowSound(st, a))
    && OneOpenPerBill(st.attempts) && ProviderIdsUnique(st.attempts) && RequestsSound(st.attempts, st.requested)
  }

  lemma BookSound(st: State, op: Ledger.Op)
    requires Sound(st)
    ensures Sound(st.(book := Ledger.Step(st.book, op).0))
    ensures Continues(st.book, Ledger.Step(st.book, op).0)
  {
    hide Ledger.Step; hide Sound; hide Continues;
    BookOfSound(st);
    StepKeeps(st.book, op);
    StepContinues(st.book, op);
    RowsStaySound(st, Ledger.Step(st.book, op).0);
  }

  lemma BookOfSound(st: State)
    requires Sound(st)
    ensures Valid(st.book)
  {
    hide Valid;
  }

  lemma RowsStaySound(st: State, book: Book)
    requires Sound(st) && Valid(book) && Continues(st.book, book)
    ensures Sound(st.(book := book))
  {
    hide Valid; hide OneOpenPerBill; hide ProviderIdsUnique; hide RequestsSound;
    var st' := st.(book := book);
    forall a | 0 <= a < |st.attempts| ensures RowSound(st', a) { assert RowSound(st, a); }
  }

  /** A row that keeps its bill and stays open only if it was. */
  lemma RowUpdateSound(st: State, a: nat, row: Attempt, requested: set<nat>)
    requires Sound(st) && a < |st.attempts| && row.bill == st.attempts[a].bill
    requires row.status.Succeeded? <==> row.payment.Some?
    requires row.payment.Some? ==> row.payment.value < |st.book.payments|
    requires IsOpenStatus(row.status) ==> IsOpenStatus(st.attempts[a].status)
    requires requested <= st.requested + {a} && (a in requested ==> row.status.RefundPending? || row.status.Refunded?)
    requires row.providerPaymentId == st.attempts[a].providerPaymentId || !SaveConflicts(st.attempts, a, row)
    ensures Sound(st.(attempts := st.attempts[a := row], requested := requested))
  {
    hide Valid;
    var st' := st.(attempts := st.attempts[a := row], requested := requested);
    forall b | 0 <= b < |st'.attempts| ensures RowSound(st', b) { assert RowSound(st, b); }
  }

  lemma RowAppendSound(st: State, row: Attempt)
    requires Sound(st) && row.bill < |st.book.bills| && row.status.Created? && row.providerPaymentId == ""
    requires row.payment.None?
    requires forall b :: 0 <= b < |st.attempts| && st.attempts[b].bill == row.bill ==>
        !IsOpenStatus(st.attempts[b].status)
    ensures Sound(st.(attempts := st.attempts + [row]))
  {
    hide Valid;
    var st' := st.(attempts := st.attempts + [row]);
    forall b | 0 <= b < |st'.attempts| ensures RowSound(st', b) { if b < |st.attempts| { assert RowSound(st, b); } }
  }

  lemma StartSound(st: State, bill: nat, now: int, ttl: int)
    requires Sound(st)
    ensures Sound(Start(st, bill, now, ttl).0)
  {
    hide Sound; hide Find;
    if bill < |st.book.bills| && IsOpen(st.book.bills[bill].status)
        && st.book.bills[bill].currency == SUPPORTED_CURRENCY {
      var b := st.book.bills[bill];
      var row := NewAttempt(bill, b.total - b.paid, b.currency, now, ttl);
      var open := Find(st.attempts, OpenFor(bill));
      if open.None? {
        NoneOpen(st.attempts, bill);
        RowAppendSound(st, row);
      } else if !Reusable(st.attempts[open.value], b.total - b.paid, now) {
        var a := open.value;
        var expired := st.attempts[a].(status := Expired);
        OpenRow(st, a);
        OnlyOneOpen(st, a, bill, expired);
        NoneOpen(st.attempts[a := expired], bill);
        RowUpdateSound(st, a, expired, st.requested);
        RowAppendSound(WithAttempt(st, a, expired), row);
      }
    }
  }

  lemma OpenRow(st: State, a: nat)
    requires Sound(st) && a < |st.attempts| && Unsettled(st.attempts[a].status)
    ensures st.attempts[a].payment.None? && a !in st.requested && st.attempts[a].bill < |st.book.bills|
  {
    assert RowSound(st, a);
    hide Valid;
  }

  lemma OnlyOneOpen(st: State, a: nat, bill: nat, row: Attempt)
    requires Sound(st) && a < |st.attempts| && OpenFor(bill)(st.attempts[a]) && !IsOpenStatus(row.status)
    ensures Find(st.attempts[a := row], OpenFor(bill)).None?
  {
    hide Valid;
    var rows := st.attempts[a := row];
    assert forall b :: 0 <= b < |rows| ==> !OpenFor(bill)(rows[b]);
  }

  lemma OrderStepSound(st: State, op: Move)
    requires Sound(st) && (op.ActivateOp? || op.RejectOp? || op.GiveUpOp? || op.PollOp?)
    ensures Sound(Next(st, op).0)
  {
    hide Sound; hide Find;
    var a := op.attempt;
    if a < |st.attempts| && IsOpenStatus(st.attempts[a].status) {
      OpenRow(st, a);
      RowUpdateSound(st, a, Next(st, op).0.attempts[a], st.requested);
    }
  }

  lemma RefundStepSound(st: State, op: Move)
    requires Sound(st) && (op.RequestRefundOp? || op.FinishRefundOp?)
    ensures Sound(Next(st, op).0)
  {
    var a, st' := op.attempt, Next(st, op).0;
    if a < |st.attempts| && st' != st {
      assert RowSound(st, a);
      assert a in st.requested ==> st.attempts[a].status.RefundPending? || st.attempts[a].status.Refunded?;
      hide Sound;
      RowUpdateSound(st, a, st'.attempts[a], st'.requested);
    }
  }

  /** The ledger operation behind a capture. */
  function CaptureOp(st: State, a: nat, id: string, today: Date): Ledger.Op
    requires a < |st.attempts| && st.attempts[a].bill < |st.book.bills|
  {
    var row := st.attempts[a];
    PayOp(st.book.bills[row.bill].tenant, row.bill, row.amount, today, today, Online, CashfreeReference(id),
        OnlineKey(a))
  }

  lemma DeliverSound(st: State, a: nat, p: ProviderPayment, today: Date)
    requires Sound(st)
    ensures Sound(Deliver(st, a, p, today).0)
  {
    hide Sound; hide SaveConflicts; hide Pay;
    if a < |st.attempts| && Unsettled(st.attempts[a].status) {
      var row, st' := st.attempts[a], Deliver(st, a, p, today).0;
      OpenRow(st, a);
      if !p.status.Success? {
        if IsOpenStatus(row.status) { RowUpdateSound(st, a, row.(lastStatus := Some(p.status)), st.requested); }
      } else if st' != st {
        BookSound(st, CaptureOp(st, a, p.id, today));
        CaptureReplyInRange(st, a, p.id, today);
        if st'.book == st.book {
          RowUpdateSound(st, a, st'.attempts[a], st.requested);
        } else {
          RowUpdateSound(st.(book := st'.book), a, st'.attempts[a], st.requested);
        }
      }
    }
  }

  /** The payment a capture is answered with is the appended one or an older one with the attempt's key. */
  lemma CaptureReplyInRange(st: State, a: nat, id: string, today: Date)
    requires a < |st.attempts| && st.attempts[a].bill < |st.book.bills|
    ensures var tenant := st.book.bills[st.attempts[a].bill].tenant;
            var (book, reply) := RecordCapture(st, a, id, today);
            var taken := Find(st.book.payments, HasKey(tenant, OnlineKey(a)));
            && (reply.PaymentIs? ==> reply.id < |book.payments|)
            && (reply.PaymentIs? && taken.Some? ==> book == st.book && reply.id == taken.value)
            && (reply.PaymentIs? && taken.None? ==>
                  && reply.id == |st.book.payments| && |book.payments| == |st.book.payments| + 1
                  && book.payments[reply.id] == CapturePayment(st, a, id, today))
  {
    hide SettleStatus; hide Find;
  }

  lemma StepIsSound(st: State, op: Move)
    requires Sound(st)
    ensures Sound(Next(st, op).0)
  {
    hide Sound; hide Start; hide Deliver; hide Ledger.Step;
    match op
    case LedgerOp(o) => BookSound(st, o);
    case StartOp(bill, now, ttl) => StartSound(st, bill, now, ttl);
    case DeliverOp(a, p, today) => DeliverSound(st, a, p, today);
    case RequestRefundOp(a) => RefundStepSound(st, op);
    case FinishRefundOp(a, status) => RefundStepSound(st, op);
    case _ => OrderStepSound(st, op);
  }

  /** Whatever keys owners send: the ledger stays valid, a bill has at most one open attempt, a provider payment
      belongs to at most one attempt, and an attempt is SUCCEEDED if and only if it points at a payment. */
  lemma {:induction false} RunsAreSound(ops: seq<Move>)
    ensures Sound(After(INITIAL, ops))
  {
    hide Sound; hide Next;
    if ops == [] {
      InitialIsSound();
    } else {
      RunsAreSound(ops[..|ops| - 1]);
      StepIsSound(After(INITIAL, ops[..|ops| - 1]), ops[|ops| - 1]);
    }
  }

  lemma InitialIsSound()
    ensures Sound(INITIAL)
  {
    EmptyIsValid();
  }

  // ---------- where a payment with a capture key comes from ----------

  /** The state before step k of a run from the empty tables. */
  ghost function Before(ops: seq<Move>, k: nat): State
    requires k <= |ops|
  {
    After(INITIAL, ops[..k])
  }

  lemma BeforeNext(ops: seq<Move>, k: nat)
    requires k < |ops|
    ensures Before(ops, k + 1) == Next(Before(ops, k), ops[k]).0
  {
    assert ops[..k + 1][..k] == ops[..k];
    hide Next;
  }

  /** Step j is an owner's payment request of this workspace under the key of attempt a, and creates a payment. */
  ghost predicate TakesKey(ops: seq<Move>, j: nat, tenant: nat, a: nat)
    requires j < |ops|
  {
    && ops[j].LedgerOp? && ops[j].op.PayOp? && ops[j].op.tenant == tenant && ops[j].op.key == OnlineKey(a)
    && |Before(ops, j + 1).book.payments| > |Before(ops, j).book.payments|
  }

  ghost predicate KeyTaken(ops: seq<Move>, k: nat, tenant: nat, a: nat)
    requires k <= |ops|
  {
    exists j :: 0 <= j < k && TakesKey(ops, j, tenant, a)
  }

  /** Workspace and key of a payment never change, and none disappears. */
  ghost predicate KeysStay(was: seq<Payment>, now: seq<Payment>) {
    && |was| <= |now|
    && forall q :: 0 <= q < |was| ==>
         now[q].tenant == was[q].tenant && now[q].key == was[q].key && (was[q].means.Online? ==> now[q] == was[q])
  }

  /** Owners' operations append at most one payment, with the request's workspace and key. */
  lemma OwnerAppends(book: Book, op: Ledger.Op)
    ensures var was, now := book.payments, Ledger.Step(book, op).0.payments;
            && KeysStay(was, now) && |now| <= |was| + 1
            && (|now| > |was| ==> op.PayOp? && now[|was|].tenant == op.tenant && now[|was|].key == op.key)
  {
    hide EditOf; hide Sum; hide GeneratedLines; hide SettleStatus; hide Find;
  }

  /** So do captures, with the attempt's own key, and then the attempt points at that payment. */
  lemma CaptureAppends(st: State, a: nat, p: ProviderPayment, today: Date)
    ensures var st' := Deliver(st, a, p, today).0;
            && KeysStay(st.book.payments, st'.book.payments) && |st'.book.payments| <= |st.book.payments| + 1
            && (|st'.book.payments| > |st.book.payments| ==>
                  && a < |st'.attempts| && st'.attempts[a].status.Succeeded?
                  && st'.attempts[a].payment == Some(|st.book.payments|)
                  && st'.book.payments[|st.book.payments|].key == OnlineKey(a))
  {
    hide Pay; hide SaveConflicts; hide Find; hide KeysStay;
    KeysStayRefl(st.book.payments);
    if a < |st.attempts| && st.attempts[a].bill < |st.book.bills| {
      CaptureReplyInRange(st, a, p.id, today);
      OwnerAppends(st.book, CaptureOp(st, a, p.id, today));
    }
  }

  lemma KeysStayRefl(rows: seq<Payment>)
    ensures KeysStay(rows, rows)
  {
  }

  /** Attempts never disappear, keep their bill, and a settled one never changes. */
  ghost predicate AttemptsStay(was: seq<Attempt>, now: seq<Attempt>) {
    && |was| <= |now|
    && forall a :: 0 <= a < |was| ==> now[a].bill == was[a].bill && (was[a].status.Succeeded? ==> now[a] == was[a])
  }

  lemma AttemptsMove(st: State, op: Move)
    requires RequestsSound(st.attempts, st.requested)
    ensures AttemptsStay(st.attempts, Next(st, op).0.attempts)
  {
    AttemptsGrow(st, op);
    hide RequestsSound; hide Next;
    forall a | 0 <= a < |st.attempts|
      ensures var row, row' := st.attempts[a], Next(st, op).0.attempts[a];
              row'.bill == row.bill && (row.status.Succeeded? ==> row' == row)
    {
      AttemptMoves(st, op, a);
    }
  }

  lemma AttemptMoves(st: State, op: Move, a: nat)
    requires RequestsSound(st.attempts, st.requested) && a < |st.attempts|
    ensures var st' := Next(st, op).0;
            && a < |st'.attempts| && st'.attempts[a].bill == st.attempts[a].bill
            && (st.attempts[a].status.Succeeded? ==> st'.attempts[a] == st.attempts[a])
  {
    StepRaisesRank(st, op, a);
    hide Next; hide RequestsSound;
  }

  lemma AttemptsGrow(st: State, op: Move)
    ensures |Next(st, op).0.attempts| >= |st.attempts|
  {
    hide Ledger.Step; hide Find; hide RecordCapture; hide SaveConflicts;
  }

  /** One step: payments keep their keys; at most one is appended, by an owner or by the capture of its attempt. */
  ghost predicate PaymentStep(st: State, op: Move, st': State) {
    var was, now := st.book.payments, st'.book.payments;
    && KeysStay(was, now) && |now| <= |was| + 1
    && (|now| > |was| ==>
          || (op.LedgerOp? && op.op.PayOp? && now[|was|].tenant == op.op.tenant && now[|was|].key == op.op.key)
          || (op.DeliverOp? && op.attempt < |st'.attempts| && now[|was|].key == OnlineKey(op.attempt)
              && st'.attempts[op.attempt].status.Succeeded? && st'.attempts[op.attempt].payment == Some(|was|)))
  }

  lemma StepPays(st: State, op: Move)
    ensures PaymentStep(st, op, Next(st, op).0)
  {
    hide Ledger.Step; hide Find; hide Start; hide Deliver; hide KeysStay;
    KeysStayRefl(st.book.payments);
    match op
    case LedgerOp(o) => OwnerAppends(st.book, o);
    case DeliverOp(a, p, today) => CaptureAppends(st, a, p, today);
    case StartOp(bill, now, ttl) => StartKeepsBook(st, bill, now, ttl);
    case _ =>
  }

  lemma StartKeepsBook(st: State, bill: nat, now: int, ttl: int)
    ensures Start(st, bill, now, ttl).0.book == st.book
  {
    hide Find;
  }

  ghost predicate SettledWith(st: State, n: nat, q: nat) {
    n < |st.attempts| && st.attempts[n].status.Succeeded? && st.attempts[n].payment == Some(q)
  }

  /** A payment under a capture key was created by an owner under that key, or its attempt has settled with it. */
  ghost predicate Origin(ops: seq<Move>, k: nat, q: nat)
    requires k <= |ops| && q < |Before(ops, k).book.payments|
  {
    var st := Before(ops, k);
    var p := st.book.payments[q];
    p.key.OnlineKey? ==>
      || KeyTaken(ops, k, p.tenant, p.key.attempt)
      || SettledWith(st, p.key.attempt, q)
  }

  lemma KeyTakenLater(ops: seq<Move>, k: nat, tenant: nat, a: nat)
    requires k < |ops|
    ensures KeyTaken(ops, k + 1, tenant, a) <==> KeyTaken(ops, k, tenant, a) || TakesKey(ops, k, tenant, a)
  {
    hide TakesKey;
  }

  /** A payment after a step was there before, or is appended by an owner or by the capture of its attempt. */
  lemma OriginStep(st: State, op: Move, q: nat)
    requires RequestsSound(st.attempts, st.requested)
    requires q < |Next(st, op).0.book.payments| && Next(st, op).0.book.payments[q].key.OnlineKey?
    ensures var st' := Next(st, op).0;
            var p, n := st'.book.payments[q], st'.book.payments[q].key.attempt;
            if q < |st.book.payments| then
              && st.book.payments[q].tenant == p.tenant && st.book.payments[q].key == p.key
              && (SettledWith(st, n, q) ==> SettledWith(st', n, q))
            else
              || SettledWith(st', n, q)
              || (op.LedgerOp? && op.op.PayOp? && op.op.tenant == p.tenant && op.op.key == p.key)
  {
    hide Next; hide RequestsSound;
    StepPays(st, op);
    AttemptsMove(st, op);
    var was, now := st.book.payments, Next(st, op).0.book.payments;
    if q >= |was| { assert q == |was|; }
  }

  lemma OriginNext(ops: seq<Move>, k: nat, q: nat)
    requires k < |ops| && q < |Before(ops, k + 1).book.payments|
    requires q < |Before(ops, k).book.payments| ==> Origin(ops, k, q)
    ensures Origin(ops, k + 1, q)
  {
    hide Before; hide Next; hide Sound; hide KeyTaken; hide SettledWith;
    var st, st' := Before(ops, k), Before(ops, k + 1);
    var p := st'.book.payments[q];
    BeforeNext(ops, k);
    if p.key.OnlineKey? {
      var n := p.key.attempt;
      BeforeSound(ops, k);
      OriginStep(st, ops[k], q);
      KeyTakenLater(ops, k, p.tenant, n);
      if q >= |st.book.payments| {
        assert SettledWith(st', n, q) || TakesKey(ops, k, p.tenant, n);
      }
    }
  }

  lemma {:induction false} OriginAlways(ops: seq<Move>, k: nat, q: nat)
    requires k <= |ops| && q < |Before(ops, k).book.payments|
    ensures Origin(ops, k, q)
  {
    NothingAtFirst(ops);
    if k > 0 {
      hide Before; hide Origin;
      if q < |Before(ops, k - 1).book.payments| { OriginAlways(ops, k - 1, q); }
      OriginNext(ops, k - 1, q);
    }
  }

  lemma NothingAtFirst(ops: seq<Move>)
    ensures Before(ops, 0) == INITIAL
  {
    assert ops[..0] == [];
  }

  lemma BeforeSound(ops: seq<Move>, k: nat)
    requires k <= |ops|
    ensures Sound(Before(ops, k)) && RequestsSound(Before(ops, k).attempts, Before(ops, k).requested)
  {
    RunsAreSound(ops[..k]);
    hide After; hide Valid; hide RequestsSound;
  }

  ghost predicate Stays(was: State, now: State) {
    KeysStay(was.book.payments, now.book.payments) && AttemptsStay(was.attempts, now.attempts)
  }

  lemma StaysTransitive(x: State, y: State, z: State)
    requires Stays(x, y) && Stays(y, z)
    ensures Stays(x, z)
  {
  }

  lemma NextStays(st: State, op: Move)
    requires RequestsSound(st.attempts, st.requested)
    ensures Stays(st, Next(st, op).0)
  {
    StepPays(st, op);
    AttemptsMove(st, op);
    hide Next; hide RequestsSound; hide KeysStay; hide AttemptsStay;
  }

  lemma StaysRefl(st: State)
    ensures Stays(st, st)
  {
  }

  /** Between two moments of a run payments keep their keys and attempts stay. */
  lemma {:induction false} BetweenStays(ops: seq<Move>, j: nat, k: nat)
    requires j <= k <= |ops|
    ensures Stays(Before(ops, j), Before(ops, k))
  {
    hide Before; hide Next; hide Sound; hide Stays; hide RequestsSound;
    if j == k {
      StaysRefl(Before(ops, j));
    } else {
      BetweenStays(ops, j, k - 1);
      BeforeNext(ops, k - 1);
      BeforeSound(ops, k - 1);
      NextStays(Before(ops, k - 1), ops[k - 1]);
      StaysTransitive(Before(ops, j), Before(ops, k - 1), Before(ops, k));
    }
  }

  /** While an attempt has not settled, a workspace's ledger holds a payment under its key if and only if an owner
      request of that workspace created one. */
  lemma KeyOriginExactly(ops: seq<Move>, k: nat, tenant: nat, a: nat)
    requires k <= |ops|
    requires a < |Before(ops, k).attempts| ==> !Before(ops, k).attempts[a].status.Succeeded?
    ensures Find(Before(ops, k).book.payments, HasKey(tenant, OnlineKey(a))).Some? <==> KeyTaken(ops, k, tenant, a)
  {
    hide Before; hide TakesKey;
    var payments := Before(ops, k).book.payments;
    var found := Find(payments, HasKey(tenant, OnlineKey(a)));
    if found.Some? {
      assert HasKey(tenant, OnlineKey(a))(payments[found.value]);
      OriginAlways(ops, k, found.value);
    }
    if j :| 0 <= j < k && TakesKey(ops, j, tenant, a) {
      TakenIsStored(ops, j, tenant, a);
      BetweenStays(ops, j + 1, k);
      assert HasKey(tenant, OnlineKey(a))(payments[|Before(ops, j).book.payments|]);
    }
    hide Find;
  }

  lemma TakenIsStored(ops: seq<Move>, j: nat, tenant: nat, a: nat)
    requires j < |ops| && TakesKey(ops, j, tenant, a)
    ensures var q, payments := |Before(ops, j).book.payments|, Before(ops, j + 1).book.payments;
            q < |payments| && payments[q].tenant == tenant && payments[q].key == OnlineKey(a)
  {
    hide Before; hide Next;
    BeforeNext(ops, j);
    StepPays(Before(ops, j), ops[j]);
  }

  // ---------- one attempt ----------

  /** Step k turns the attempt SUCCEEDED. */
  ghost predicate SettlesAt(ops: seq<Move>, k: nat, a: nat)
    requires k < |ops|
  {
    && a < |Before(ops, k + 1).attempts| && Before(ops, k + 1).attempts[a].status.Succeeded?
    && (a < |Before(ops, k).attempts| ==> !Before(ops, k).attempts[a].status.Succeeded?)
  }

  /** From then on the attempt is linked to the payment that step recorded: its own capture. */
  ghost predicate OwnForGood(ops: seq<Move>, k: nat, a: nat)
    requires k < |ops|
  {
    forall m :: k < m <= |ops| ==>
      && a < |Before(ops, m).attempts| && Linked(Before(ops, m), a)
      && Before(ops, m).attempts[a].payment == Some(|Before(ops, k).book.payments|)
  }

  /** Only the capture of an existing attempt settles it. */
  lemma SettledByDelivery(ops: seq<Move>, k: nat, a: nat)
    requires k < |ops| && SettlesAt(ops, k, a)
    ensures ops[k].DeliverOp? && ops[k].attempt == a && a < |Before(ops, k).attempts|
    ensures Before(ops, k).attempts[a].bill < |Before(ops, k).book.bills|
    ensures Deliver(Before(ops, k), a, ops[k].payment, ops[k].today).1.SettledNow?
    ensures Before(ops, k + 1) == Deliver(Before(ops, k), a, ops[k].payment, ops[k].today).0
  {
    BeforeNext(ops, k);
    BeforeSound(ops, k);
    hide Before;
    OnlyDeliverySettles(Before(ops, k), ops[k], a);
    hide Next; hide Sound; hide Deliver;
  }

  lemma OnlyDeliverySettles(st: State, op: Move, a: nat)
    requires Sound(st)
    requires a < |Next(st, op).0.attempts| && Next(st, op).0.attempts[a].status.Succeeded?
    requires a < |st.attempts| ==> !st.attempts[a].status.Succeeded?
    ensures op.DeliverOp? && op.attempt == a && a < |st.attempts| && st.attempts[a].bill < |st.book.bills|
    ensures Next(st, op) == Deliver(st, a, op.payment, op.today) && Next(st, op).1.SettledNow?
  {
    hide Valid; hide Ledger.Step; hide Find; hide OneOpenPerBill; hide ProviderIdsUnique; hide RowSound;
    hide RecordCapture; hide SaveConflicts;
    if op.StartOp? {
      StartNeverSettles(st, op.bill, op.now, op.ttl, a);
      assert false;
    }
  }

  lemma StartNeverSettles(st: State, bill: nat, now: int, ttl: int, a: nat)
    requires a < |Start(st, bill, now, ttl).0.attempts| && Start(st, bill, now, ttl).0.attempts[a].status.Succeeded?
    ensures a < |st.attempts| && st.attempts[a].status.Succeeded?
  {
    hide Find;
  }

  /** One settling step, in any state: it links the payment it records itself if and only if no payment of the
      workspace carries the attempt's key; otherwise it links that older payment and records nothing. */
  lemma SettlesWithOwnCaptureExactly(st: State, a: nat, p: ProviderPayment, today: Date)
    requires a < |st.attempts| && st.attempts[a].bill < |st.book.bills| && Deliver(st, a, p, today).1.SettledNow?
    ensures var st', tenant := Deliver(st, a, p, today).0, st.book.bills[st.attempts[a].bill].tenant;
            var taken := Find(st.book.payments, HasKey(tenant, OnlineKey(a)));
            && |st'.attempts| == |st.attempts| && st'.attempts[a].status.Succeeded?
            && ((st'.attempts[a].payment == Some(|st.book.payments|) && |st'.book.payments| == |st.book.payments| + 1)
                <==> taken.None?)
            && (taken.Some? ==> st'.book == st.book && st'.attempts[a].payment == taken)
            && (taken.None? ==> Linked(st', a) && st'.attempts[a].payment == Some(|st.book.payments|))
  {
    CaptureReplyInRange(st, a, p.id, today);
    hide RecordCapture; hide SaveConflicts; hide Find;
  }

  lemma LinkStays(ops: seq<Move>, k: nat, m: nat, a: nat)
    requires k <= m <= |ops| && a < |Before(ops, k).attempts| && Before(ops, k).attempts[a].status.Succeeded?
    requires Linked(Before(ops, k), a)
    ensures a < |Before(ops, m).attempts| && Before(ops, m).attempts[a] == Before(ops, k).attempts[a]
    ensures Linked(Before(ops, m), a)
  {
    hide Before;
    BetweenStays(ops, k, m);
  }

  /** The settlement guarantee per attempt, over any run: the attempt stays linked for good to the capture that
      settled it if and only if no owner request of its workspace had created a payment under its key by then;
      otherwise the settling step records nothing at all. */
  lemma OwnCaptureExactly(ops: seq<Move>, k: nat, a: nat)
    requires k < |ops| && SettlesAt(ops, k, a)
    ensures a < |Before(ops, k).attempts| && Before(ops, k).attempts[a].bill < |Before(ops, k).book.bills|
    ensures var tenant := Before(ops, k).book.bills[Before(ops, k).attempts[a].bill].tenant;
            && (OwnForGood(ops, k, a) <==> !KeyTaken(ops, k, tenant, a))
            && (KeyTaken(ops, k, tenant, a) ==> Before(ops, k + 1).book == Before(ops, k).book)
  {
    SettledByDelivery(ops, k, a);
    var st, st' := Before(ops, k), Before(ops, k + 1);
    var tenant := st.book.bills[st.attempts[a].bill].tenant;
    SettlesWithOwnCaptureExactly(st, a, ops[k].payment, ops[k].today);
    KeyOriginExactly(ops, k, tenant, a);
    hide Before; hide Deliver; hide KeyTaken; hide Linked; hide Find;
    if KeyTaken(ops, k, tenant, a) {
      assert st'.attempts[a].payment != Some(|st.book.payments|);
      assert !OwnForGood(ops, k, a);
    } else {
      forall m | k < m <= |ops|
        ensures a < |Before(ops, m).attempts| && Linked(Before(ops, m), a)
                && Before(ops, m).attempts[a].payment == Some(|st.book.payments|)
      {
        LinkStays(ops, k + 1, m, a);
      }
    }
  }

  lemma SettlesAlone(ops: seq<Move>, j: nat, k: nat, a: nat)
    requires j < |ops| && k < |ops| && SettlesAt(ops, j, a) && SettlesAt(ops, k, a)
    ensures j == k
  {
    hide Before;
    if j < k { BetweenStays(ops, j + 1, k); }
    if j > k { BetweenStays(ops, k + 1, j); }
  }

  /** Every SUCCEEDED attempt has exactly one step that settled it. */
  lemma {:induction false} SettledOnce(ops: seq<Move>, m: nat, a: nat) returns (k: nat)
    requires m <= |ops| && a < |Before(ops, m).attempts| && Before(ops, m).attempts[a].status.Succeeded?
    ensures k < m && SettlesAt(ops, k, a) && forall j :: 0 <= j < |ops| && SettlesAt(ops, j, a) ==> j == k
  {
    NothingAtFirst(ops);
    if m == 0 {
      assert false;
    } else {
      hide Before; hide Next;
      if a < |Before(ops, m - 1).attempts| && Before(ops, m - 1).attempts[a].status.Succeeded? {
        k := SettledOnce(ops, m - 1, a);
      } else {
        k := m - 1;
        hide SettlesAt;
        forall j | 0 <= j < |ops| && SettlesAt(ops, j, a) ensures j == k { SettlesAlone(ops, j, k, a); }
      }
    }
  }

  /** Settlement safety per attempt: over every run of the checkout protocol, honest or not, an attempt that is
      SUCCEEDED at the end has one settling step, and was linked ever since to the capture recorded there if and
      only if no owner of its workspace had used its key before that step. */
  lemma SettlementPerAttempt(ops: seq<Move>, a: nat) returns (k: nat)
    requires a < |After(INITIAL, ops).attempts| && After(INITIAL, ops).attempts[a].status.Succeeded?
    ensures k < |ops| && SettlesAt(ops, k, a) && forall j :: 0 <= j < |ops| && SettlesAt(ops, j, a) ==> j == k
    ensures a < |Before(ops, k).attempts| && Before(ops, k).attempts[a].bill < |Before(ops, k).book.bills|
    ensures OwnForGood(ops, k, a)
            <==> !KeyTaken(ops, k, Before(ops, k).book.bills[Before(ops, k).attempts[a].bill].tenant, a)
  {
    assert ops[..|ops|] == ops;
    assert Before(ops, |ops|) == After(INITIAL, ops);
    hide Before; hide After; hide SettlesAt; hide OwnForGood; hide KeyTaken;
    k := SettledOnce(ops, |ops|, a);
    OwnCaptureExactly(ops, k, a);
  }

  // ---------- captured money ----------

  /** Step k is a delivery that records a payment. */
  ghost predicate RecordsCapture(ops: seq<Move>, k: nat)
    requires k < |ops|
  {
    ops[k].DeliverOp? && |Before(ops, k + 1).book.payments| > |Before(ops, k).book.payments|
  }

  /** The money recorded for captures in the first k steps. */
  ghost function Captured(ops: seq<Move>, k: nat): int
    requires k <= |ops|
  {
    if k == 0 then 0
    else
      Captured(ops, k - 1)
      + if RecordsCapture(ops, k - 1) then Before(ops, k).book.payments[|Before(ops, k - 1).book.payments|].amount
          else 0
  }

  /** Attempt a has been settled, by a step that recorded its capture. */
  ghost predicate OwnSettled(ops: seq<Move>, k: nat, a: nat)
    requires k <= |ops|
  {
    exists j :: 0 <= j < k && SettlesAt(ops, j, a) && RecordsCapture(ops, j)
  }

  /** What the first n attempts settled by their own captures ask for. */
  ghost function OwnAmounts(ops: seq<Move>, k: nat, n: nat): int
    requires k <= |ops| && n <= |Before(ops, k).attempts|
  {
    if n == 0 then 0
    else OwnAmounts(ops, k, n - 1) + if OwnSettled(ops, k, n - 1) then Before(ops, k).attempts[n - 1].amount else 0
  }

  /** A delivery that records a payment settles its attempt with exactly the amount that asks for. */
  lemma CaptureSettles(ops: seq<Move>, k: nat)
    requires k < |ops| && RecordsCapture(ops, k)
    ensures SettlesAt(ops, k, ops[k].attempt) && ops[k].attempt < |Before(ops, k).attempts|
    ensures |Before(ops, k).book.payments| < |Before(ops, k + 1).book.payments|
    ensures Before(ops, k + 1).book.payments[|Before(ops, k).book.payments|].amount
            == Before(ops, k).attempts[ops[k].attempt].amount
  {
    BeforeNext(ops, k);
    hide Before;
    CaptureRecords(Before(ops, k), ops[k].attempt, ops[k].payment, ops[k].today);
    hide Deliver;
  }

  lemma CaptureRecords(st: State, a: nat, p: ProviderPayment, today: Date)
    requires |Deliver(st, a, p, today).0.book.payments| > |st.book.payments|
    ensures var st' := Deliver(st, a, p, today).0;
            && a < |st.attempts| && a < |st'.attempts| && st'.attempts[a].status.Succeeded?
            && !st.attempts[a].status.Succeeded?
            && st'.book.payments[|st.book.payments|].amount == st.attempts[a].amount
  {
    if a < |st.attempts| && st.attempts[a].bill < |st.book.bills| { CaptureReplyInRange(st, a, p.id, today); }
    hide RecordCapture; hide SaveConflicts; hide Find;
  }

  lemma OwnSettledNext(ops: seq<Move>, k: nat, a: nat)
    requires k < |ops|
    ensures OwnSettled(ops, k + 1, a) <==> OwnSettled(ops, k, a) || (RecordsCapture(ops, k) && ops[k].attempt == a)
  {
    if RecordsCapture(ops, k) { CaptureSettles(ops, k); }
    if SettlesAt(ops, k, a) { SettledByDelivery(ops, k, a); }
    hide SettlesAt; hide RecordsCapture;
  }

  /** What one more step adds to the amounts of the attempts there were. */
  lemma {:induction false} OwnAmountsNext(ops: seq<Move>, k: nat, n: nat)
    requires k < |ops| && n <= |Before(ops, k).attempts| <= |Before(ops, k + 1).attempts|
    ensures OwnAmounts(ops, k + 1, n) == OwnAmounts(ops, k, n)
              + if RecordsCapture(ops, k) && ops[k].attempt < n then Before(ops, k).attempts[ops[k].attempt].amount
                  else 0
  {
    hide Before; hide OwnSettled; hide SettlesAt;
    if n > 0 {
      OwnAmountsNext(ops, k, n - 1);
      OwnSettledNext(ops, k, n - 1);
      AmountStays(ops, k, n - 1);
      if RecordsCapture(ops, k) { CaptureSettles(ops, k); OwnOnce(ops, k); }
    }
  }

  /** The attempt a capture settles had not been settled before. */
  lemma OwnOnce(ops: seq<Move>, k: nat)
    requires k < |ops| && RecordsCapture(ops, k)
    ensures !OwnSettled(ops, k, ops[k].attempt)
  {
    CaptureSettles(ops, k);
    hide RecordsCapture; hide SettlesAt;
    forall j | 0 <= j < k ensures !SettlesAt(ops, j, ops[k].attempt) { SettledLater(ops, j, k, ops[k].attempt); }
  }

  lemma SettledLater(ops: seq<Move>, j: nat, k: nat, a: nat)
    requires j < k < |ops| && SettlesAt(ops, k, a)
    ensures !SettlesAt(ops, j, a)
  {
    BetweenStays(ops, j + 1, k);
    hide Before;
  }

  lemma AmountStays(ops: seq<Move>, k: nat, a: nat)
    requires k < |ops| && a < |Before(ops, k).attempts|
    ensures a < |Before(ops, k + 1).attempts|
    ensures Before(ops, k + 1).attempts[a].amount == Before(ops, k).attempts[a].amount
  {
    BeforeNext(ops, k);
    BeforeSound(ops, k);
    hide Before; hide Sound; hide RequestsSound;
    StepRaisesRank(Before(ops, k), ops[k], a);
    hide Next;
  }

  /** A new attempt has not been settled. */
  lemma {:induction false} NewUnsettled(ops: seq<Move>, k: nat, n: nat)
    requires k < |ops| && |Before(ops, k).attempts| <= n <= |Before(ops, k + 1).attempts|
    ensures OwnAmounts(ops, k + 1, n) == OwnAmounts(ops, k + 1, |Before(ops, k).attempts|)
  {
    hide Before; hide OwnSettled; hide RecordsCapture; hide SettlesAt;
    if n > |Before(ops, k).attempts| {
      NewUnsettled(ops, k, n - 1);
      OwnSettledNext(ops, k, n - 1);
      if RecordsCapture(ops, k) { CaptureSettles(ops, k); }
      NeverThere(ops, k, n - 1);
    }
  }

  lemma NeverThere(ops: seq<Move>, k: nat, a: nat)
    requires k <= |ops| && a >= |Before(ops, k).attempts|
    ensures !OwnSettled(ops, k, a)
  {
    forall j | 0 <= j < k ensures !SettlesAt(ops, j, a) { BetweenStays(ops, j + 1, k); }
    hide Before; hide RecordsCapture;
  }

  /** Conservation over every run, honest or not: the money recorded for captures is exactly what the attempts ask
      for that were settled by their own captures. */
  lemma {:induction false} CapturesConserved(ops: seq<Move>, k: nat)
    requires k <= |ops|
    ensures Captured(ops, k) == OwnAmounts(ops, k, |Before(ops, k).attempts|)
  {
    if k == 0 {
      NothingAtFirst(ops);
    } else {
      CapturesConserved(ops, k - 1);
      BetweenStays(ops, k - 1, k);
      OwnAmountsNext(ops, k - 1, |Before(ops, k - 1).attempts|);
      NewUnsettled(ops, k - 1, |Before(ops, k).attempts|);
      if RecordsCapture(ops, k - 1) { CaptureSettles(ops, k - 1); }
      hide Before; hide RecordsCapture; hide SettlesAt; hide OwnAmounts;
    }
  }

  // ---------- whole lives, from any state ----------

  /** Settlement is final in every run: a SUCCEEDED attempt never changes again, and one that is linked to its
      completed payment stays linked to it. */
  lemma {:induction false} SettledForever(st: State, ops: seq<Move>, a: nat)
    requires RequestsSound(st.attempts, st.requested) && a < |st.attempts| && st.attempts[a].status.Succeeded?
    ensures var st' := After(st, ops);
            && a < |st'.attempts| && st'.attempts[a] == st.attempts[a] && (Linked(st, a) ==> Linked(st', a))
  {
    hide Next; hide RequestsSound;
    if ops != [] {
      var init, op := ops[..|ops| - 1], ops[|ops| - 1];
      SettledForever(st, init, a);
      FewStatusChanges(st, init, a);
      AttemptMoves(After(st, init), op, a);
      StepPays(After(st, init), op);
    }
  }

  ghost predicate UsesKey(op: Move, a: nat) { op.LedgerOp? && op.op.PayOp? && op.op.key == OnlineKey(a) }

  /** No capture is ever both kept for refund and credited, in every run: an attempt that was once owed a refund
      never settles, and no payment under its key is recorded but by owners who use that key themselves. */
  lemma {:induction false} RefundedIsNeverCredited(st: State, ops: seq<Move>, a: nat)
    requires RequestsSound(st.attempts, st.requested) && a < |st.attempts|
    requires Rank(st.attempts[a].status) >= 3 && !st.attempts[a].status.Succeeded?
    ensures var st' := After(st, ops);
            && a < |st'.attempts| && Rank(st'.attempts[a].status) >= 3 && !st'.attempts[a].status.Succeeded?
            && |st'.book.payments| >= |st.book.payments|
            && forall p :: |st.book.payments| <= p < |st'.book.payments| && st'.book.payments[p].key == OnlineKey(a) ==>
                 exists j :: 0 <= j < |ops| && UsesKey(ops[j], a)
  {
    hide Next; hide RequestsSound;
    if ops != [] {
      var n := |ops| - 1;
      var init, op := ops[..n], ops[n];
      RefundedIsNeverCredited(st, init, a);
      FewStatusChanges(st, init, a);
      StepRaisesRank(After(st, init), op, a);
      StepPays(After(st, init), op);
      var st' := After(st, ops);
      forall p | |st.book.payments| <= p < |st'.book.payments| && st'.book.payments[p].key == OnlineKey(a)
        ensures exists j :: 0 <= j < |ops| && UsesKey(ops[j], a)
      {
        if p < |After(st, init).book.payments| {
          var j :| 0 <= j < |init| && UsesKey(init[j], a);
          assert UsesKey(ops[j], a);
        } else {
          assert UsesKey(ops[n], a);
        }
      }
    }
  }
}
