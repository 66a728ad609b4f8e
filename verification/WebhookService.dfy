/** Webhook storage and processing, checkouts and manual overrides as they run: the three tables are
    fields, `process_event` reads, guards, dispatches and writes in the service's own order. */
module WebhookService {
  import opened Tables
  import opened Subscriptions
  import opened SubscriptionSafety
  import opened SubscriptionEffects
  import opened SubscriptionSweeps

  /** `.filter(processed=False).order_by("received_at")` */
  function Pending(events: seq<Event>): (order: seq<nat>)
    ensures forall i :: i in order <==> 0 <= i < |events| && !events[i].processed
    ensures forall j, k :: 0 <= j < k < |order| && order[j] < |events| && order[k] < |events|
              ==> events[order[j]].receivedAt <= events[order[k]].receivedAt
  {
    if events == [] then []
    else
      var n := |events| - 1;
      var rest := Pending(events[..n]);
      if events[n].processed then rest else InsertByArrival(events, rest, n)
  }

  function InsertByArrival(events: seq<Event>, order: seq<nat>, i: nat): (r: seq<nat>)
    requires i < |events| && forall k :: 0 <= k < |order| ==> order[k] < |events|
    requires forall j, k :: 0 <= j < k < |order| ==> events[order[j]].receivedAt <= events[order[k]].receivedAt
    ensures forall x :: x in r <==> x in order || x == i
    ensures forall k :: 0 <= k < |r| ==> r[k] < |events|
    ensures forall j, k :: 0 <= j < k < |r| ==> events[r[j]].receivedAt <= events[r[k]].receivedAt
  {
    if order == [] then [i]
    else
      var last := order[|order| - 1];
      if events[last].receivedAt <= events[i].receivedAt then order + [i]
      else
        var r := InsertByArrival(events, order[..|order| - 1], i);
        assert forall k :: 0 <= k < |r| ==> r[k] in r;
        assert order == order[..|order| - 1] + [last];
        r + [last]
  }

  /** This checkout is the one the notice activates, and its workspace does not subscribe yet. */
  ghost predicate Opens(subs: seq<Sub>, c: Checkout, n: Notice) {
    SubFor(subs, n.ext).None? && n.ext.Some? && c.ext == n.ext && Find(subs, OfTenant(c.tenant)).None?
  }

  /** A matched row is only ever brought to ACTIVE, and never out of CANCELED; without a row or a checkout of the
      id nothing happens; a checkout whose workspace does not subscribe yet gets its row, which then matches. */
  ghost predicate Activates(subs: seq<Sub>, checkouts: seq<Checkout>, n: Notice, now: int, subs': seq<Sub>,
                            outcome: Outcome) {
    var mine := SubFor(subs, n.ext);
    && (mine.Some? ==>
          var s := subs[mine.value];
          && (outcome.Applied? <==> s.status.Trialing? || s.status.PastDue?)
          && subs' == if outcome.Applied? then subs[mine.value := s.(status := Active)] else subs)
    && (mine.None? && (forall k :: 0 <= k < |checkouts| ==> n.ext.None? || checkouts[k].ext != n.ext) ==>
          subs' == subs && outcome.Noop?)
    && (CheckoutsUnique(checkouts) ==>
          forall k :: 0 <= k < |checkouts| && Opens(subs, checkouts[k], n) ==>
            && outcome.Applied? && |subs'| == |subs| + 1 && SubFor(subs', n.ext) == Some(|subs|)
            && var s := subs'[|subs|];
               && s.tenant == checkouts[k].tenant && s.plan == checkouts[k].plan && s.status.Active? && s.mark.None?
               && s.start == now && s.end - now == Term(s.plan))
  }

  lemma ActivationMeaning(subs: seq<Sub>, checkouts: seq<Checkout>, n: Notice, now: int)
    ensures var (subs', outcome) := HandleActivated(subs, checkouts, n, now);
            Activates(subs, checkouts, n, now, subs', outcome)
  {
    if SubFor(subs, n.ext).None? && n.ext.Some? { FirstActivation(subs, checkouts, n, n.ext.value, now); }
    hide Find; hide SubFor; hide Classify; hide CheckoutsUnique; hide ActivateCheckout;
  }

  lemma FirstActivation(subs: seq<Sub>, checkouts: seq<Checkout>, n: Notice, x: string, now: int)
    requires n.ext == Some(x) && SubFor(subs, n.ext).None?
    ensures var (subs', outcome) := HandleActivated(subs, checkouts, n, now);
            && ((forall k :: 0 <= k < |checkouts| ==> checkouts[k].ext != n.ext) ==> subs' == subs && outcome.Noop?)
            && (CheckoutsUnique(checkouts) ==>
                  forall k :: 0 <= k < |checkouts| && Opens(subs, checkouts[k], n) ==>
                    && outcome.Applied? && |subs'| == |subs| + 1 && SubFor(subs', n.ext) == Some(|subs|)
                    && var s := subs'[|subs|];
                       && s.tenant == checkouts[k].tenant && s.plan == checkouts[k].plan && s.status.Active?
                       && s.mark.None? && s.start == now && s.end - now == Term(s.plan))
  {
    var subs' := HandleActivated(subs, checkouts, n, now).0;
    var found := Find(checkouts, ForExt(x));
    if found.Some? { assert ForExt(x)(checkouts[found.value]); }
    if found.None? { assert forall k :: 0 <= k < |checkouts| ==> !ForExt(x)(checkouts[k]); }
    if found.Some? && Find(subs, OfTenant(checkouts[found.value].tenant)).None? {
      NoSubHas(subs, x);
      NoSubHas(subs', x);
    }
    hide Find; hide SubFor; hide Classify;
  }

  /** A cancellation or a failed payment: the verdict on the matched row, or nothing. */
  ghost predicate AnsweredOn(subs: seq<Sub>, n: Notice, subs': seq<Sub>, outcome: Outcome) {
    var mine := SubFor(subs, n.ext);
    var v := if mine.None? then None else Verdict(subs[mine.value], n);
    if v.None? then subs' == subs && outcome.Noop? else subs' == subs[mine.value := v.value] && outcome.Applied?
  }

  class WebhookProcessor {
    var subs: seq<Sub>
    var checkouts: seq<Checkout>
    var events: seq<Event>

    function Rows(): Db
      reads this
    {
      Db(subs, checkouts, events)
    }

    constructor ()
      ensures Rows() == Db([], [], []) && Unique(Rows())
    {
      subs, checkouts, events := [], [], [];
    }

    /** Stores a delivery once; a redelivery answers with the row already there. */
    method Record(n: Notice, now: int) returns (row: nat)
      modifies this`events
      ensures Rows() == RecordEvent(old(Rows()), n, now)
      ensures RecordedAs(old(Rows()), n, now, Rows())
      ensures row < |events| && events[row].notice.key == n.key
    {
      RecordExactly(Rows(), n, now);
      var existing := Find(events, HasEventKey(n.key));
      if existing.Some? {
        assert HasEventKey(n.key)(events[existing.value]);
        return existing.value;
      }
      row := |events|;
      events := events + [Event(n, now, false)];
    }

    // ---------- handlers ----------

    method HandleActivation(n: Notice, now: int) returns (outcome: Outcome)
      modifies this`subs
      ensures (subs, outcome) == HandleActivated(old(subs), checkouts, n, now)
      ensures Activates(old(subs), checkouts, n, now, subs, outcome)
    {
      hide Activates; hide Find; hide Classify;
      ActivationMeaning(subs, checkouts, n, now);
      var mine := SubFor(subs, n.ext);
      if mine.Some? {
        var subscription := subs[mine.value];
        if subscription.status.Active? || subscription.status.Canceled? { return Noop; }
        subs := subs[mine.value := subscription.(status := Active)];
        return Applied;
      }
      if n.ext.None? { return Noop; }
      var checkout := Find(checkouts, ForExt(n.ext.value));
      if checkout.None? { return Noop; }
      outcome := Activate(checkouts[checkout.value], n.ext.value, now);
    }

    /** Creates the row; when the workspace subscribes already, converges on its row and applies a paid upgrade. */
    method Activate(c: Checkout, ext: string, now: int) returns (outcome: Outcome)
      modifies this`subs
      ensures (subs, outcome) == ActivateCheckout(old(subs), c, ext, now)
      ensures SubsUnique(old(subs)) ==> CheckoutActivated(old(subs), c, Some(ext), now, subs, outcome)
    {
      hide Find; hide Classify; hide CheckoutActivated; hide SubsUnique;
      if SubsUnique(subs) { CheckoutActivates(subs, c, ext, now); }
      var taken := Find(subs, OfTenant(c.tenant));
      var row;
      if taken.None? {
        var (start, end) := DefaultPeriod(c.plan, now);
        row := |subs|;
        subs := subs + [Sub(c.tenant, c.plan, Trialing, Some(ext), None, start, end)];
      } else {
        row := taken.value;
        if subs[row].plan.id != c.plan.id && Classify(subs[row].plan, c.plan).Upgrade? {
          if subs[row].status.Canceled? { return Noop; }
          subs := subs[row := subs[row].(plan := c.plan)];
          if subs[row].ext != Some(ext) { subs := subs[row := subs[row].(ext := Some(ext))]; }
        }
      }
      if !subs[row].status.Active? && !subs[row].status.Canceled? {
        subs := subs[row := subs[row].(status := Active)];
      }
      outcome := Applied;
      assert subs == ActivateCheckout(old(subs), c, ext, now).0;
    }

    /** Deferred exactly while the id is unmatched and young; applied exactly to a live matched row that the
        charged period does not precede; only that row changes, and only its period and status. */
    method HandleCharge(n: Notice, receivedAt: int, now: int) returns (outcome: Outcome)
      modifies this`subs
      ensures (subs, outcome) == HandleCharged(old(subs), n, receivedAt, now)
      ensures outcome.Deferred? <==> n.ext.Some? && SubFor(old(subs), n.ext).None? && now - receivedAt <= 86400000000
      ensures outcome.Applied? <==>
                exists i :: 0 <= i < |old(subs)| && SubFor(old(subs), n.ext) == Some(i)
                            && !old(subs)[i].status.Canceled?
                            && (n.periodStart.Some? && n.periodEnd.Some? ==> n.periodEnd.value > old(subs)[i].start)
      ensures |subs| == |old(subs)|
      ensures forall i :: 0 <= i < |subs| ==>
                var s, s' := old(subs)[i], subs[i];
                s' == if outcome.Applied? && SubFor(old(subs), n.ext) == Some(i)
                      then Verdict(s, n.(kind := Charged)).GetOr(s) else s
    {
      hide Find;
      var mine := SubFor(subs, n.ext);
      if mine.None? {
        if n.ext.None? { return Noop; }
        var age := now - receivedAt;
        return if age > RETRY_WINDOW then Noop else Deferred;
      }
      var subscription := subs[mine.value];
      if subscription.status.Canceled? { return Noop; }
      var start, end;
      if n.periodStart.Some? && n.periodEnd.Some? {
        if n.periodEnd.value <= subscription.start { return Noop; }
        start, end := n.periodStart.value, n.periodEnd.value;
      } else {
        var period := DefaultPeriod(subscription.plan, subscription.end);
        start, end := period.0, period.1;
      }
      subscription := subscription.(start := start, end := end);
      if subscription.status.PastDue? || subscription.status.Trialing? {
        subscription := subscription.(status := Active);
      }
      subs := subs[mine.value := subscription];
      outcome := Applied;
    }

    method HandleCancellation(n: Notice) returns (outcome: Outcome)
      modifies this`subs
      ensures (subs, outcome) == HandleCancelled(old(subs), n)
      ensures AnsweredOn(old(subs), n.(kind := Cancelled), subs, outcome)
    {
      hide Find;
      var mine := SubFor(subs, n.ext);
      if mine.None? || subs[mine.value].status.Canceled? { return Noop; }
      subs := subs[mine.value := subs[mine.value].(status := Canceled)];
      outcome := Applied;
    }

    method HandleTrouble(n: Notice) returns (outcome: Outcome)
      modifies this`subs
      ensures (subs, outcome) == HandlePaymentTrouble(old(subs), n)
      ensures AnsweredOn(old(subs), n.(kind := PaymentTrouble), subs, outcome)
    {
      hide Find;
      var mine := SubFor(subs, n.ext);
      if mine.None? || !subs[mine.value].status.Active? { return Noop; }
      subs := subs[mine.value := subs[mine.value].(status := PastDue)];
      outcome := Applied;
    }

    method Dispatch(e: Event, now: int) returns (outcome: Outcome)
      modifies this`subs
      ensures (subs, outcome) == Handle(old(Rows()), e, now)
    {
      hide HandleActivated; hide HandleCharged; hide HandleCancelled; hide HandlePaymentTrouble;
      match e.notice.kind {
        case Activated => outcome := HandleActivation(e.notice, now);
        case Charged => outcome := HandleCharge(e.notice, e.receivedAt, now);
        case Cancelled => outcome := HandleCancellation(e.notice);
        case PaymentTrouble => outcome := HandleTrouble(e.notice);
        case Unknown => outcome := Noop;
      }
    }

    // ---------- process_event and the sweep ----------

    /** One delivery, one transaction: at most one effect, no canceled row touched, no mark moved back. */
    method Process(i: nat, now: int) returns (outcome: Outcome)
      modifies this`subs, this`events
      ensures (Rows(), outcome) == ProcessEvent(old(Rows()), i, now)
      ensures Unique(old(Rows())) ==> ProcessedAs(old(Rows()), i, now, Rows(), outcome)
      ensures RowsMove(old(subs), subs)
    {
      hide Handle; hide SubFor; hide Unique; hide ProcessedAs; hide RowsMove;
      if Unique(Rows()) { ProcessExactly(Rows(), i, now); }
      StepMoves(Rows(), ProcessOp(i, now));
      if i >= |events| || events[i].processed { return Skipped; }
      var event := events[i];
      var before := SubFor(subs, event.notice.ext);
      var mark := if before.Some? then subs[before.value].mark else None;
      if before.Some? && IsStale(event.notice, mark) {
        outcome := Noop;
      } else {
        outcome := Dispatch(event, now);
        if outcome.Applied? && before.Some? && before.value < |subs| && event.notice.createdAt.Some?
           && (mark.None? || event.notice.createdAt.value > mark.value)
        {
          subs := subs[before.value := subs[before.value].(mark := event.notice.createdAt)];
        }
      }
      if !outcome.Deferred? { events := events[i := event.(processed := true)]; }
    }

    /** The rest of `process_event` when nothing matched the event's id to lock: the handler decides on the row as it
        read it and saves one column group after the other on the row as it is by then. */
    method FinishUnlocked(i: nat, r: nat, seen: Sub, checkout: Option<Checkout>)
      requires i < |events| && r < |subs| && ReadAs(subs[r], seen, events[i].notice, checkout)
      modifies this`subs, this`events
      ensures Rows() == ProcessUnlocked(old(Rows()), i, r, seen, checkout)
      ensures FinishedAs(old(Rows()), i, r, seen, checkout, Rows())
      ensures MarksMove(old(subs), subs)
    {
      hide Classify; hide DefaultPeriod; hide FinishedAs;
      UnlockedExactly(Rows(), i, r, seen, checkout);
      if events[i].processed { return; }
      var n := events[i].notice;
      var row, status := subs[r], seen.status;
      match n.kind {
        case Activated =>
          var upgrade := checkout.Some? && seen.plan.id != checkout.value.plan.id
                         && Classify(seen.plan, checkout.value.plan).Upgrade?;
          if upgrade && !status.Canceled? {
            row := row.(plan := checkout.value.plan);
            if seen.ext != n.ext {
              if exists j :: 0 <= j < |subs| && j != r && subs[j].ext == n.ext { return; }
              row := row.(ext := n.ext);
            }
          }
          if !status.Active? && !status.Canceled? { row := row.(status := Active); }
        case Charged =>
          var dated := n.periodStart.Some? && n.periodEnd.Some?;
          if !status.Canceled? && !(dated && n.periodEnd.value <= seen.start) {
            var period := if dated then (n.periodStart.value, n.periodEnd.value)
                else DefaultPeriod(seen.plan, seen.end);
            row := row.(start := period.0, end := period.1);
            if status.PastDue? || status.Trialing? { row := row.(status := Active); }
          }
        case Cancelled => if !status.Canceled? { row := row.(status := Canceled); }
        case PaymentTrouble => if status.Active? { row := row.(status := PastDue); }
        case Unknown =>
      }
      subs := subs[r := row];
      events := events[i := events[i].(processed := true)];
    }

    /** The retry sweep, oldest delivery first. Everything left pending is a charge that may still find its
        subscription; after a second sweep it has none. */
    method ProcessPending(now: int) returns (outcomes: seq<Outcome>)
      modifies this`subs, this`events
      ensures Rows() == Run(old(Rows()), Sweep(Pending(old(events)), now))
      ensures |outcomes| == |Pending(old(events))| && |events| == |old(events)|
      ensures OnlyRetryable(events)
      ensures OnlyRetryable(old(events)) ==> AllStuck(Rows(), now)
    {
      hide Run; hide ProcessEvent; hide AllStuck; hide OnlyRetryable; hide RowsMove; hide Pending;
      ghost var db := Rows();
      var pending := Pending(events);
      SweepLeaves(db, pending, now);
      SweepNone(db, now);
      outcomes := [];
      for k := 0 to |pending|
        invariant |outcomes| == k && Rows() == Run(db, Sweep(pending[..k], now))
      {
        var outcome := Process(pending[k], now);
        outcomes := outcomes + [outcome];
        assert pending[..k + 1][..k] == pending[..k];
        SweepSplits(db, pending[..k + 1], now);
      }
      assert pending[..|pending|] == pending;
    }

    // ---------- checkouts and overrides ----------

    /** Raises a mandate with the provider at most once per workspace and plan; the answer is an argument. */
    method OpenCheckout(tenant: nat, plan: Plan, answer: Option<string>, abandoned: bool, now: int)
      requires CheckoutsUnique(checkouts)
      modifies this`checkouts
      ensures Rows() == CreateCheckout(old(Rows()), tenant, plan, answer, abandoned, now)
      ensures CheckedOutAs(old(Rows()), tenant, plan, answer, abandoned, now, Rows())
      ensures CheckoutsUnique(checkouts)
    {
      hide Find; hide CheckedOutAs; hide CheckoutsUnique;
      CheckoutUnique(Rows(), tenant, plan, answer, abandoned, now);
      CheckoutExactly(Rows(), tenant, plan, answer, abandoned, now);
      var mine := Find(checkouts, OwnedBy(tenant));
      if mine.Some? && checkouts[mine.value].ext.Some? {
        var checkout := checkouts[mine.value];
        if checkout.plan.id == plan.id { return; }
        if !Abandoned(checkout, now, abandoned) { return; }
      }
      if answer.None? || Find(checkouts, ForExt(answer.value)).Some? { return; }
      if mine.Some? {
        checkouts := checkouts[mine.value := Checkout(tenant, plan, answer, false, now)];
      } else {
        checkouts := checkouts + [Checkout(tenant, plan, answer, false, now)];
      }
    }

    /** `transition_status` on a row the request read earlier with status `seen`. */
    method Override(i: nat, seen: Status, to: Status) returns (ok: bool)
      modifies this`subs
      ensures Rows() == TransitionStatus(old(Rows()), i, seen, to)
      ensures ok <==> i < |old(subs)| && MayBecome(seen, to)
      ensures subs == if ok then old(subs)[i := old(subs)[i].(status := to)] else old(subs)
      ensures i < |old(subs)| && old(subs)[i].status.Canceled? ==>
                (subs[i] == old(subs)[i] <==> !Legal(seen, to) || to.Canceled?)
    {
      LegalExactly(seen, to);
      if i >= |subs| || !Legal(seen, to) { return false; }
      subs := subs[i := subs[i].(status := to)];
      ok := true;
    }

    /** `change_plan`, likewise. */
    method SwapPlan(i: nat, seen: Status, plan: Plan) returns (ok: bool)
      modifies this`subs
      ensures Rows() == ChangePlan(old(Rows()), i, seen, plan)
      ensures ok <==> i < |old(subs)| && !seen.Canceled?
      ensures subs == if ok then old(subs)[i := old(subs)[i].(plan := plan)] else old(subs)
      ensures i < |old(subs)| && old(subs)[i].status.Canceled? ==>
                (subs[i] == old(subs)[i] <==> seen.Canceled? || plan == old(subs)[i].plan)
    {
      if i >= |subs| || seen.Canceled? { return false; }
      subs := subs[i := subs[i].(plan := plan)];
      ok := true;
    }
  }
}
