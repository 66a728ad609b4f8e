/** What webhooks, overrides and checkouts make of the rows, as one table of outcomes: every event against every
    row it can meet, with all durations written out in microseconds. */
module SubscriptionEffects {
  import opened Tables
  import opened Subscriptions
  import opened SubscriptionSafety

  // ---------- a row and an event ----------

  /** A billing period nobody dated: 365 days of an annual plan, 30 days of a monthly one. */
  function Term(plan: Plan): int { if plan.annual then 31536000000000 else 2592000000000 }

  /** What an event makes of the subscription it matches, guard and mark left aside; None if nothing. */
  function Verdict(s: Sub, n: Notice): Option<Sub> {
    match n.kind
    case Activated => if s.status.Trialing? || s.status.PastDue? then Some(s.(status := Active)) else None
    case Charged =>
      if s.status.Canceled? then None
      else if n.periodStart.None? || n.periodEnd.None? then
        Some(s.(status := Active, start := s.end, end := s.end + Term(s.plan)))
      else if n.periodEnd.value > s.start then
        Some(s.(status := Active, start := n.periodStart.value, end := n.periodEnd.value))
      else None
    case Cancelled => if s.status.Canceled? then None else Some(s.(status := Canceled))
    case PaymentTrouble => if s.status.Active? then Some(s.(status := PastDue)) else None
    case Unknown => None
  }

  /** Older than what already took effect; a cancellation never is. */
  predicate TooOld(s: Sub, n: Notice) {
    !n.kind.Cancelled? && n.createdAt.Some? && s.mark.Some? && n.createdAt.value < s.mark.value
  }

  function Later(mark: Option<int>, time: Option<int>): Option<int> {
    if mark.None? then time
    else if time.None? then mark
    else if time.value > mark.value then time else mark
  }

  /** What a checkout's activation makes of the subscription its workspace already has; None if it is refused. */
  function Converged(s: Sub, c: Checkout, ext: Option<string>): Option<Sub> {
    if c.plan.id != s.plan.id && s.plan.tier.Basic? && c.plan.tier.Pro? then
      if s.status.Canceled? then None else Some(s.(plan := c.plan, ext := ext, status := Active))
    else if s.status.Canceled? then Some(s)
    else Some(s.(status := Active))
  }

  /** The activation of checkout c: a first row that starts now, or the row of the workspace brought along. */
  ghost predicate CheckoutActivated(subs: seq<Sub>, c: Checkout, ext: Option<string>, now: int,
                                    subs': seq<Sub>, outcome: Outcome) {
    && ((forall j :: 0 <= j < |subs| ==> subs[j].tenant != c.tenant) ==>
          outcome.Applied? && subs' == subs + [Sub(c.tenant, c.plan, Active, ext, None, now, now + Term(c.plan))])
    && (forall j :: 0 <= j < |subs| && subs[j].tenant == c.tenant ==>
          var row := Converged(subs[j], c, ext);
          if row.None? then subs' == subs && outcome.Noop?
          else subs' == subs[j := row.value] && outcome.Applied?)
  }

  lemma CheckoutActivates(subs: seq<Sub>, c: Checkout, ext: string, now: int)
    requires SubsUnique(subs)
    ensures var (subs', outcome) := ActivateCheckout(subs, c, ext, now);
            CheckoutActivated(subs, c, Some(ext), now, subs', outcome)
  {
    hide Find; hide Classify;
    NoSubOf(subs, c.tenant);
    var found := Find(subs, OfTenant(c.tenant));
    if found.Some? { ClassifyExactly(subs[found.value].plan, c.plan); }
  }

  // ---------- process_event ----------

  ghost predicate Matches(subs: seq<Sub>, r: int, n: Notice) {
    0 <= r < |subs| && n.ext.Some? && subs[r].ext == n.ext
  }

  ghost predicate RaisedFor(checkouts: seq<Checkout>, k: int, n: Notice) {
    0 <= k < |checkouts| && n.ext.Some? && checkouts[k].ext == n.ext
  }

  /** The subscription rows and the answer after one pending event, under the lock. A row the event matches takes
      the event's verdict and, if there is one, remembers the later time. Without such a row only two things can
      happen: a charge of at most one day's age waits, and an activation runs the checkout raised for it. */
  ghost predicate Took(db: Db, e: Event, now: int, subs': seq<Sub>, outcome: Outcome) {
    var n := e.notice;
    && (forall r :: Matches(db.subs, r, n) ==>
          var s, v := db.subs[r], Verdict(db.subs[r], n);
          if TooOld(s, n) || v.None? then subs' == db.subs && outcome.Noop?
          else subs' == db.subs[r := v.value.(mark := Later(s.mark, n.createdAt))] && outcome.Applied?)
    && ((forall r :: !Matches(db.subs, r, n)) ==>
          if n.kind.Charged? && n.ext.Some? && now - e.receivedAt <= 86400000000 then
            subs' == db.subs && outcome.Deferred?
          else
            && (forall k :: n.kind.Activated? && RaisedFor(db.checkouts, k, n) ==>
                  CheckoutActivated(db.subs, db.checkouts[k], n.ext, now, subs', outcome))
            && (!n.kind.Activated? || (forall k :: !RaisedFor(db.checkouts, k, n)) ==>
                  subs' == db.subs && outcome.Noop?))
  }

  ghost predicate ProcessedAs(db: Db, i: nat, now: int, db': Db, outcome: Outcome) {
    if i >= |db.events| || db.events[i].processed then db' == db && outcome.Skipped?
    else
      && Took(db, db.events[i], now, db'.subs, outcome)
      && db'.checkouts == db.checkouts
      && db'.events == if outcome.Deferred? then db.events else db.events[i := db.events[i].(processed := true)]
  }

  lemma ProcessExactly(db: Db, i: nat, now: int)
    requires Unique(db)
    ensures ProcessedAs(db, i, now, ProcessEvent(db, i, now).0, ProcessEvent(db, i, now).1)
  {
    hide Unique; hide Apply; hide Took;
    if i < |db.events| { ApplyExactly(db, db.events[i], now); }
  }

  lemma ApplyExactly(db: Db, e: Event, now: int)
    requires Unique(db)
    ensures Took(db, e, now, Apply(db, e, now).0, Apply(db, e, now).1)
  {
    hide Handle; hide SubFor; hide CheckoutActivated; hide SubsUnique; hide CheckoutsUnique; hide EventsUnique;
    MatchIsFound(db.subs, e.notice);
    var before := SubFor(db.subs, e.notice.ext);
    if before.Some? {
      HandleMatched(db, e, now);
    } else {
      HandleUnmatched(db, e, now);
    }
  }

  lemma MatchIsFound(subs: seq<Sub>, n: Notice)
    requires SubsUnique(subs)
    ensures forall r :: Matches(subs, r, n) <==> SubFor(subs, n.ext) == Some(r)
  {
    hide Find;
    if n.ext.Some? { NoSubHas(subs, n.ext.value); }
  }

  lemma HandleMatched(db: Db, e: Event, now: int)
    requires SubFor(db.subs, e.notice.ext).Some?
    ensures var r := SubFor(db.subs, e.notice.ext).value;
            var v, (subs', outcome) := Verdict(db.subs[r], e.notice), Handle(db, e, now);
            if v.None? then subs' == db.subs && outcome.Noop?
            else subs' == db.subs[r := v.value] && outcome.Applied?
  {
    hide Find; hide SubFor; hide ActivateCheckout;
  }

  lemma HandleUnmatched(db: Db, e: Event, now: int)
    requires Unique(db) && SubFor(db.subs, e.notice.ext).None?
    ensures var n, (subs', outcome) := e.notice, Handle(db, e, now);
            if n.kind.Charged? && n.ext.Some? && now - e.receivedAt <= 86400000000 then
              subs' == db.subs && outcome.Deferred?
            else
              && (forall k :: n.kind.Activated? && RaisedFor(db.checkouts, k, n) ==>
                    CheckoutActivated(db.subs, db.checkouts[k], n.ext, now, subs', outcome))
              && (!n.kind.Activated? || (forall k :: !RaisedFor(db.checkouts, k, n)) ==>
                    subs' == db.subs && outcome.Noop?)
  {
    hide Find; hide SubFor; hide ActivateCheckout; hide CheckoutActivated; hide EventsUnique; hide SubsUnique;
    if e.notice.ext.Some? {
      CheckoutIsFound(db.checkouts, e.notice);
      var k := Find(db.checkouts, ForExt(e.notice.ext.value));
      if k.Some? { CheckoutActivates(db.subs, db.checkouts[k.value], e.notice.ext.value, now); }
    }
  }

  lemma CheckoutIsFound(checkouts: seq<Checkout>, n: Notice)
    requires CheckoutsUnique(checkouts) && n.ext.Some?
    ensures forall k :: RaisedFor(checkouts, k, n) <==> Find(checkouts, ForExt(n.ext.value)) == Some(k)
  {
    var found := Find(checkouts, ForExt(n.ext.value));
    if found.Some? { assert ForExt(n.ext.value)(checkouts[found.value]); }
    if found.None? { assert forall k :: 0 <= k < |checkouts| ==> !ForExt(n.ext.value)(checkouts[k]); }
    hide Find;
  }

  // ---------- events that locked nothing ----------

  /** What an event saves on a row decided on an earlier reading of it: exactly the columns it changes on what it
      read, and, for a paid upgrade, the plan and the new provider id. */
  function SavedBy(row: Sub, seen: Sub, n: Notice, checkout: Option<Checkout>): Sub {
    match checkout
    case None =>
      var v := Verdict(seen, n);
      if v.None? then row
      else
        var kept := row.(status := if v.value.status == seen.status then row.status else v.value.status);
        if n.kind.Charged? then kept.(start := v.value.start, end := v.value.end) else kept
    case Some(c) =>
      var upgrade := c.plan.id != seen.plan.id && seen.plan.tier.Basic? && c.plan.tier.Pro?;
      if seen.status.Canceled? then row
      else
        row.(status := if seen.status.Active? then row.status else Active,
             plan := if upgrade then c.plan else row.plan,
             ext := if upgrade && seen.ext != n.ext then n.ext else row.ext)
  }

  /** It goes through to the row unless it would adopt a provider id that another row holds by then. */
  ghost predicate FinishedAs(db: Db, i: nat, r: nat, seen: Sub, checkout: Option<Checkout>, db': Db)
    requires i < |db.events| && r < |db.subs|
  {
    var n := db.events[i].notice;
    var row := SavedBy(db.subs[r], seen, n, checkout);
    if db.events[i].processed then db' == db
    else if checkout.Some? && !seen.status.Canceled? && seen.ext != n.ext && checkout.value.plan.id != seen.plan.id
            && seen.plan.tier.Basic? && checkout.value.plan.tier.Pro?
            && exists j :: 0 <= j < |db.subs| && j != r && db.subs[j].ext == n.ext then db' == db
    else db' == db.(subs := db.subs[r := row], events := db.events[i := db.events[i].(processed := true)])
  }

  lemma UnlockedExactly(db: Db, i: nat, r: nat, seen: Sub, checkout: Option<Checkout>)
    requires i < |db.events| && r < |db.subs| && ReadAs(db.subs[r], seen, db.events[i].notice, checkout)
    ensures FinishedAs(db, i, r, seen, checkout, ProcessUnlocked(db, i, r, seen, checkout))
  {
    hide Classify;
    if checkout.Some? { ClassifyExactly(seen.plan, checkout.value.plan); }
  }

  // ---------- storage, checkouts, overrides ----------

  ghost predicate RecordedAs(db: Db, n: Notice, now: int, db': Db) {
    if exists j :: 0 <= j < |db.events| && db.events[j].notice.key == n.key then db' == db
    else db' == db.(events := db.events + [Event(n, now, false)])
  }

  lemma RecordExactly(db: Db, n: Notice, now: int)
    ensures RecordedAs(db, n, now, RecordEvent(db, n, now))
  {
    var found := Find(db.events, HasEventKey(n.key));
    if found.Some? { assert HasEventKey(n.key)(db.events[found.value]); }
    if found.None? { assert forall j :: 0 <= j < |db.events| ==> !HasEventKey(n.key)(db.events[j]); }
    hide Find;
  }

  /** A checkout is raised only on an answer with an id that is new. It takes the workspace's row if that was never
      raised, or is for another plan, unconfirmed, an hour old and abandoned by the provider's word; a workspace
      without a row gets one. */
  ghost predicate CheckedOutAs(db: Db, tenant: nat, plan: Plan, answer: Option<string>, abandoned: bool, now: int,
                               db': Db) {
    var unheld := answer.Some? && forall j :: 0 <= j < |db.checkouts| ==> db.checkouts[j].ext != answer;
    var raised := Checkout(tenant, plan, answer, false, now);
    && (forall k :: 0 <= k < |db.checkouts| && db.checkouts[k].tenant == tenant ==>
          var c := db.checkouts[k];
          var free := c.ext.None? || (c.plan.id != plan.id && !c.confirmed && now - c.updatedAt >= 3600000000
                                      && abandoned);
          db' == if free && unheld then db.(checkouts := db.checkouts[k := raised]) else db)
    && ((forall k :: 0 <= k < |db.checkouts| ==> db.checkouts[k].tenant != tenant) ==>
          db' == if unheld then db.(checkouts := db.checkouts + [raised]) else db)
  }

  lemma CheckoutExactly(db: Db, tenant: nat, plan: Plan, answer: Option<string>, abandoned: bool, now: int)
    requires CheckoutsUnique(db.checkouts)
    ensures CheckedOutAs(db, tenant, plan, answer, abandoned, now,
                         CreateCheckout(db, tenant, plan, answer, abandoned, now))
  {
    hide Find;
    MineIsFound(db.checkouts, tenant);
    if answer.Some? { IdIsTaken(db.checkouts, answer.value); }
  }

  lemma MineIsFound(checkouts: seq<Checkout>, tenant: nat)
    requires CheckoutsUnique(checkouts)
    ensures forall k :: 0 <= k < |checkouts| ==>
              (checkouts[k].tenant == tenant <==> Find(checkouts, OwnedBy(tenant)) == Some(k))
  {
    var found := Find(checkouts, OwnedBy(tenant));
    if found.Some? { assert OwnedBy(tenant)(checkouts[found.value]); }
    if found.None? { assert forall k :: 0 <= k < |checkouts| ==> !OwnedBy(tenant)(checkouts[k]); }
    hide Find;
  }

  lemma IdIsTaken(checkouts: seq<Checkout>, x: string)
    ensures Find(checkouts, ForExt(x)).None? <==> forall j :: 0 <= j < |checkouts| ==> checkouts[j].ext != Some(x)
  {
    var found := Find(checkouts, ForExt(x));
    if found.Some? { assert ForExt(x)(checkouts[found.value]); }
    if found.None? { assert forall k :: 0 <= k < |checkouts| ==> !ForExt(x)(checkouts[k]); }
    hide Find;
  }

  /** Confirming marks the workspace's checkout once and dates it. */
  ghost predicate ConfirmedAs(db: Db, tenant: nat, now: int, db': Db) {
    && (forall k :: 0 <= k < |db.checkouts| && db.checkouts[k].tenant == tenant ==>
          var c := db.checkouts[k];
          db' == if c.confirmed then db
                 else db.(checkouts := db.checkouts[k := c.(confirmed := true, updatedAt := now)]))
    && ((forall k :: 0 <= k < |db.checkouts| ==> db.checkouts[k].tenant != tenant) ==> db' == db)
  }

  lemma ConfirmExactly(db: Db, tenant: nat, now: int)
    requires CheckoutsUnique(db.checkouts)
    ensures ConfirmedAs(db, tenant, now, ConfirmCheckout(db, tenant, now))
  {
    hide Find;
    MineIsFound(db.checkouts, tenant);
  }

  /** The legal moves of a status: a trial becomes active, active and past due alternate, and each of them can be
      canceled, once and for all. */
  predicate MayBecome(from: Status, to: Status) {
    || (from.Trialing? && to.Active?) || (from.Active? && to.PastDue?) || (from.PastDue? && to.Active?)
    || (!from.Canceled? && to.Canceled?)
  }

  lemma LegalExactly(from: Status, to: Status)
    ensures Legal(from, to) <==> MayBecome(from, to)
  {
  }

  // ---------- default periods ----------

  /** The first activation of a checkout leaves a row that starts now and runs for its plan's term. */
  lemma FirstPeriod(db: Db, i: nat, now: int, k: nat)
    requires Unique(db) && i < |db.events| && !db.events[i].processed && db.events[i].notice.kind.Activated?
    requires RaisedFor(db.checkouts, k, db.events[i].notice)
    requires forall j :: 0 <= j < |db.subs| ==>
        db.subs[j].tenant != db.checkouts[k].tenant && db.subs[j].ext != db.events[i].notice.ext
    ensures var subs := ProcessEvent(db, i, now).0.subs;
            && |subs| == |db.subs| + 1 && subs[..|db.subs|] == db.subs
            && var s := subs[|db.subs|];
               && s.tenant == db.checkouts[k].tenant && s.plan == db.checkouts[k].plan && s.status.Active?
               && s.ext == db.events[i].notice.ext && s.mark.None? && s.start == now
               && s.end - s.start == if s.plan.annual then 31536000000000 else 2592000000000
  {
    hide Unique; hide ProcessEvent;
    ProcessExactly(db, i, now);
    var n, c := db.events[i].notice, db.checkouts[k];
    assert CheckoutActivated(db.subs, c, n.ext, now, ProcessEvent(db, i, now).0.subs, ProcessEvent(db, i, now).1);
  }

  /** A charge without dates continues a live subscription from where it ended, for its plan's term. */
  lemma UndatedPeriod(db: Db, i: nat, now: int, r: nat)
    requires Unique(db) && i < |db.events| && !db.events[i].processed && db.events[i].notice.kind.Charged?
    requires db.events[i].notice.periodStart.None? || db.events[i].notice.periodEnd.None?
    requires Matches(db.subs, r, db.events[i].notice) && !db.subs[r].status.Canceled?
    requires !TooOld(db.subs[r], db.events[i].notice)
    ensures var s, subs := db.subs[r], ProcessEvent(db, i, now).0.subs;
            && |subs| == |db.subs| && subs == db.subs[r := subs[r]]
            && subs[r].start == s.end && subs[r].status.Active?
            && subs[r].end - subs[r].start == if s.plan.annual then 31536000000000 else 2592000000000
  {
    hide Unique; hide ProcessEvent;
    ProcessExactly(db, i, now);
  }

  // ---------- every step of a run ----------

  /** Each step leaves what its own rule says; overrides decide on the status they saw and write one column. */
  ghost predicate SteppedAs(db: Db, op: Op, db': Db) {
    match op
    case RecordOp(n, now) => RecordedAs(db, n, now, db')
    case ProcessOp(i, now) => exists outcome :: ProcessedAs(db, i, now, db', outcome)
    case CheckoutOp(tenant, plan, answer, abandoned, now) =>
      CheckedOutAs(db, tenant, plan, answer, abandoned, now, db')
    case UnlockedOp(i, r, seen, checkout) =>
      if i < |db.events| && r < |db.subs| && ReadAs(db.subs[r], seen, db.events[i].notice, checkout)
      then FinishedAs(db, i, r, seen, checkout, db') else db' == db
    case ConfirmOp(tenant, now) => ConfirmedAs(db, tenant, now, db')
    case ChangePlanOp(i, seen, plan) =>
      db' == if i < |db.subs| && !seen.Canceled? then db.(subs := db.subs[i := db.subs[i].(plan := plan)]) else db
    case TransitionOp(i, seen, to) =>
      db' == if i < |db.subs| && MayBecome(seen, to) then db.(subs := db.subs[i := db.subs[i].(status := to)]) else db
  }

  lemma StepExactly(db: Db, op: Op)
    requires Unique(db)
    ensures SteppedAs(db, op, Step(db, op))
  {
    hide RecordedAs; hide ProcessedAs; hide CheckedOutAs; hide FinishedAs; hide ConfirmedAs;
    hide RecordEvent; hide ProcessEvent; hide CreateCheckout; hide ConfirmCheckout; hide CheckoutsUnique;
    match op
    case RecordOp(n, now) => RecordExactly(db, n, now);
    case ProcessOp(i, now) => ProcessExactly(db, i, now);
    case CheckoutOp(tenant, plan, answer, abandoned, now) =>
      CheckoutExactly(db, tenant, plan, answer, abandoned, now);
    case UnlockedOp(i, r, seen, checkout) =>
      if i < |db.events| && r < |db.subs| && ReadAs(db.subs[r], seen, db.events[i].notice, checkout) {
        UnlockedExactly(db, i, r, seen, checkout);
      }
    case ConfirmOp(tenant, now) => ConfirmExactly(db, tenant, now);
    case TransitionOp(i, seen, to) => LegalExactly(seen, to);
    case ChangePlanOp(_, _, _) =>
  }

  /** Whatever was delivered, swept and overridden before, the next step does what its rule says. */
  lemma RunExactly(db: Db, ops: seq<Op>, op: Op)
    requires Unique(db)
    ensures SteppedAs(Run(db, ops), op, Run(db, ops + [op]))
  {
    hide SteppedAs; hide Step; hide Unique;
    RunsStayUnique(db, ops);
    assert (ops + [op])[..|ops|] == ops;
    StepExactly(Run(db, ops), op);
  }
}
