/** Workspace subscriptions and the processing of provider webhooks: the tables and every write to them.
    Clock readings and provider timestamps are microseconds. */
module Subscriptions {
  import opened Tables

  const DAY := 86400000000
  const RETRY_WINDOW := DAY
  const STALE_CHECKOUT := 3600000000

  /** Entitlement tier, read from the plan code's prefix. */
  datatype Tier = Basic | Pro | Unclassified
  datatype Plan = Plan(id: nat, tier: Tier, annual: bool)

  datatype Status = Trialing | Active | PastDue | Canceled

  datatype Sub = Sub(tenant: nat, plan: Plan, status: Status, ext: Option<string>,
                     mark: Option<int>, start: int, end: int)

  datatype Checkout = Checkout(tenant: nat, plan: Plan, ext: Option<string>, confirmed: bool, updatedAt: int)

  datatype Kind = Activated | Charged | Cancelled | PaymentTrouble | Unknown

  /** What the provider sent: its unique id, and the normalised fields (blank ids are None). */
  datatype Notice = Notice(key: string, kind: Kind, ext: Option<string>,
                           periodStart: Option<int>, periodEnd: Option<int>, createdAt: Option<int>)

  datatype Event = Event(notice: Notice, receivedAt: int, processed: bool)

  datatype Db = Db(subs: seq<Sub>, checkouts: seq<Checkout>, events: seq<Event>)

  datatype Outcome = Applied | Noop | Deferred | Skipped

  function HasExt(x: string): Sub -> bool { (s: Sub) => s.ext == Some(x) }
  function OfTenant(t: nat): Sub -> bool { (s: Sub) => s.tenant == t }
  function ForExt(x: string): Checkout -> bool { (c: Checkout) => c.ext == Some(x) }
  function OwnedBy(t: nat): Checkout -> bool { (c: Checkout) => c.tenant == t }
  function HasEventKey(key: string): Event -> bool { (e: Event) => e.notice.key == key }

  function SubFor(subs: seq<Sub>, ext: Option<string>): (r: Option<nat>)
    ensures r.Some? ==> r.value < |subs| && ext.Some? && subs[r.value].ext == ext
  {
    match ext
    case None => None
    case Some(x) => var r := Find(subs, HasExt(x)); assert r.Some? ==> HasExt(x)(subs[r.value]); r
  }

  // ---------- plan changes ----------

  datatype Change = NoOp | Upgrade | Refuse(code: Refusal)
  datatype Refusal = PlanChangeNotSupported | DowngradeNotSupported | CycleChangeNotSupported

  function Order(t: Tier): Option<nat> {
    match t case Basic => Some(1) case Pro => Some(2) case Unclassified => None
  }

  function Classify(current: Plan, new': Plan): Change {
    if current.id == new'.id then NoOp
    else if Order(current.tier).None? || Order(new'.tier).None? then Refuse(PlanChangeNotSupported)
    else if Order(new'.tier).value > Order(current.tier).value then Upgrade
    else if Order(new'.tier).value < Order(current.tier).value then Refuse(DowngradeNotSupported)
    else Refuse(CycleChangeNotSupported)
  }

  // ---------- the state machine ----------

  predicate Legal(from: Status, to: Status) {
    match from
    case Trialing => to.Active? || to.Canceled?
    case Active => to.PastDue? || to.Canceled?
    case PastDue => to.Active? || to.Canceled?
    case Canceled => false
  }

  function DefaultPeriod(plan: Plan, start: int): (int, int) {
    (start, start + if plan.annual then 365 * DAY else 30 * DAY)
  }

  // ---------- handlers ----------

  function HandleActivated(subs: seq<Sub>, checkouts: seq<Checkout>, n: Notice, now: int): (seq<Sub>, Outcome) {
    match SubFor(subs, n.ext)
    case Some(i) =>
      if subs[i].status.Active? || subs[i].status.Canceled? then (subs, Noop)
      else (subs[i := subs[i].(status := Active)], Applied)
    case None =>
      if n.ext.None? then (subs, Noop)
      else
        match Find(checkouts, ForExt(n.ext.value))
        case None => (subs, Noop)
        case Some(k) => ActivateCheckout(subs, checkouts[k], n.ext.value, now)
  }

  /** The row is created unless the workspace already subscribes; then this may be a paid upgrade. */
  function ActivateCheckout(subs: seq<Sub>, c: Checkout, ext: string, now: int): (seq<Sub>, Outcome) {
    match Find(subs, OfTenant(c.tenant))
    case None =>
      var period := DefaultPeriod(c.plan, now);
      (subs + [Sub(c.tenant, c.plan, Active, Some(ext), None, period.0, period.1)], Applied)
    case Some(i) =>
      var s := subs[i];
      if s.plan.id != c.plan.id && Classify(s.plan, c.plan).Upgrade? then
        if s.status.Canceled? then (subs, Noop)
        else (subs[i := s.(plan := c.plan, ext := Some(ext), status := Active)], Applied)
      else if s.status.Canceled? then (subs, Applied)
      else (subs[i := s.(status := Active)], Applied)
  }

  function HandleCharged(subs: seq<Sub>, n: Notice, receivedAt: int, now: int): (seq<Sub>, Outcome) {
    match SubFor(subs, n.ext)
    case None => (subs, if n.ext.None? || now - receivedAt > RETRY_WINDOW then Noop else Deferred)
    case Some(i) =>
      var s := subs[i];
      if s.status.Canceled? then (subs, Noop)
      else if n.periodStart.Some? && n.periodEnd.Some? then
        if n.periodEnd.value <= s.start then (subs, Noop)
        else (subs[i := s.(start := n.periodStart.value, end := n.periodEnd.value, status := Active)], Applied)
      else
        var period := DefaultPeriod(s.plan, s.end);
        (subs[i := s.(start := period.0, end := period.1, status := Active)], Applied)
  }

  function HandleCancelled(subs: seq<Sub>, n: Notice): (seq<Sub>, Outcome) {
    match SubFor(subs, n.ext)
    case None => (subs, Noop)
    case Some(i) =>
      if subs[i].status.Canceled? then (subs, Noop) else (subs[i := subs[i].(status := Canceled)], Applied)
  }

  function HandlePaymentTrouble(subs: seq<Sub>, n: Notice): (seq<Sub>, Outcome) {
    match SubFor(subs, n.ext)
    case None => (subs, Noop)
    case Some(i) =>
      if subs[i].status.Active? then (subs[i := subs[i].(status := PastDue)], Applied) else (subs, Noop)
  }

  function Handle(db: Db, e: Event, now: int): (seq<Sub>, Outcome) {
    match e.notice.kind
    case Activated => HandleActivated(db.subs, db.checkouts, e.notice, now)
    case Charged => HandleCharged(db.subs, e.notice, e.receivedAt, now)
    case Cancelled => HandleCancelled(db.subs, e.notice)
    case PaymentTrouble => HandlePaymentTrouble(db.subs, e.notice)
    case Unknown => (db.subs, Noop)
  }

  // ---------- process_event ----------

  predicate IsStale(n: Notice, mark: Option<int>) {
    !n.kind.Cancelled? && n.createdAt.Some? && mark.Some? && n.createdAt.value < mark.value
  }

  /** The high-water mark moves only for an applied, timed, newer event on a row that already existed. */
  function Advance(subs: seq<Sub>, before: Option<nat>, mark: Option<int>, n: Notice, outcome: Outcome): seq<Sub> {
    if outcome.Applied? && before.Some? && before.value < |subs| && n.createdAt.Some?
       && (mark.None? || n.createdAt.value > mark.value)
    then subs[before.value := subs[before.value].(mark := n.createdAt)]
    else subs
  }

  /** Staleness guard, handler, mark: everything `process_event` does to the subscription table. */
  function Apply(db: Db, e: Event, now: int): (seq<Sub>, Outcome) {
    var before := SubFor(db.subs, e.notice.ext);
    var mark := if before.Some? then db.subs[before.value].mark else None;
    if before.Some? && IsStale(e.notice, mark) then (db.subs, Noop)
    else
      var (subs, outcome) := Handle(db, e, now);
      (Advance(subs, before, mark, e.notice, outcome), outcome)
  }

  function ProcessEvent(db: Db, i: nat, now: int): (Db, Outcome) {
    if i >= |db.events| || db.events[i].processed then (db, Skipped)
    else
      var e := db.events[i];
      var (subs, outcome) := Apply(db, e, now);
      (db.(subs := subs, events := if outcome.Deferred? then db.events else db.events[i := e.(processed := true)]),
          outcome)
  }

  /** A redelivery finds the stored row and adds nothing. */
  function RecordEvent(db: Db, n: Notice, now: int): Db {
    if Find(db.events, HasEventKey(n.key)).Some? then db else db.(events := db.events + [Event(n, now, false)])
  }

  // ---------- events whose subscription was not locked ----------

  /** The columns a transaction saves of a subscription row. */
  datatype Saved = Saved(plan: Option<Plan>, ext: Option<string>, status: Option<Status>, period: Option<(int, int)>)

  const NOTHING := Saved(None, None, None, None)

  function SaveOn(row: Sub, w: Saved): Sub {
    row.(plan := w.plan.GetOr(row.plan), ext := if w.ext.Some? then w.ext else row.ext,
         status := w.status.GetOr(row.status),
         start := if w.period.Some? then w.period.value.0 else row.start,
         end := if w.period.Some? then w.period.value.1 else row.end)
  }

  /** What an event's handler saves, decided on the row as it read it. With a checkout, the insert of an
      activation collided and the handler converges on the row that was there. */
  function DecideOn(seen: Sub, n: Notice, checkout: Option<Checkout>): Saved {
    match n.kind
    case Activated =>
      var upgrade := checkout.Some? && seen.plan.id != checkout.value.plan.id
                     && Classify(seen.plan, checkout.value.plan).Upgrade?;
      if seen.status.Canceled? then NOTHING
      else
        NOTHING.(plan := if upgrade then Some(checkout.value.plan) else None,
                 ext := if upgrade && seen.ext != n.ext then n.ext else None,
                 status := if seen.status.Active? then None else Some(Active))
    case Charged =>
      if seen.status.Canceled? then NOTHING
      else
        var dated := n.periodStart.Some? && n.periodEnd.Some?;
        if dated && n.periodEnd.value <= seen.start then NOTHING
        else
          var period := if dated then (n.periodStart.value, n.periodEnd.value) else DefaultPeriod(seen.plan, seen.end);
          NOTHING.(period := Some(period), status := if seen.status.Active? then None else Some(Active))
    case Cancelled => if seen.status.Canceled? then NOTHING else NOTHING.(status := Some(Canceled))
    case PaymentTrouble => if seen.status.Active? then NOTHING.(status := Some(PastDue)) else NOTHING
    case Unknown => NOTHING
  }

  /** The handler read this row: by the event's id, or by the workspace of the checkout it is activating. */
  predicate ReadAs(row: Sub, seen: Sub, n: Notice, checkout: Option<Checkout>) {
    && n.ext.Some? && seen.tenant == row.tenant
    && match checkout
       case None => seen.ext == n.ext
       case Some(c) => n.kind.Activated? && c.ext == n.ext && (seen.ext == n.ext || c.tenant == seen.tenant)
  }

  predicate IdFree(subs: seq<Sub>, r: nat, ext: Option<string>) {
    ext.Some? ==> forall j :: 0 <= j < |subs| && j != r ==> subs[j].ext != ext
  }

  /** `process_event` when nothing matched the event's id as it locked: the handler reads a row later, without a
      lock, as `seen`, and saves columns of the row as it is by then. The mark does not advance, and a provider id
      that is taken by now rolls everything back. */
  function ProcessUnlocked(db: Db, i: nat, r: nat, seen: Sub, checkout: Option<Checkout>): Db {
    if i >= |db.events| || db.events[i].processed || r >= |db.subs| then db
    else
      var n := db.events[i].notice;
      var w := DecideOn(seen, n, checkout);
      if !ReadAs(db.subs[r], seen, n, checkout) || !IdFree(db.subs, r, w.ext) then db
      else db.(subs := db.subs[r := SaveOn(db.subs[r], w)], events := db.events[i := db.events[i].(processed := true)])
  }

  // ---------- checkouts and manual overrides ----------

  /** `_is_abandoned`: unconfirmed, old, and the provider says so. */
  predicate Abandoned(c: Checkout, now: int, providerSaysAbandoned: bool) {
    !c.confirmed && now - c.updatedAt >= STALE_CHECKOUT && providerSaysAbandoned
  }

  /** `create_checkout`. No answer (None), or an id the table already holds, aborts the transaction. */
  function CreateCheckout(db: Db, tenant: nat, plan: Plan, answer: Option<string>, abandoned: bool, now: int): Db {
    var mine := Find(db.checkouts, OwnedBy(tenant));
    var keeps := mine.Some? && db.checkouts[mine.value].ext.Some?
                 && (db.checkouts[mine.value].plan.id == plan.id
                       || !Abandoned(db.checkouts[mine.value], now, abandoned));
    if keeps || answer.None? || Find(db.checkouts, ForExt(answer.value)).Some? then db
    else if mine.Some? then db.(checkouts := db.checkouts[mine.value := Checkout(tenant, plan, answer, false, now)])
    else db.(checkouts := db.checkouts + [Checkout(tenant, plan, answer, false, now)])
  }

  function ConfirmCheckout(db: Db, tenant: nat, now: int): Db {
    match Find(db.checkouts, OwnedBy(tenant))
    case None => db
    case Some(k) =>
      if db.checkouts[k].confirmed then db
      else db.(checkouts := db.checkouts[k := db.checkouts[k].(confirmed := true, updatedAt := now)])
  }

  /** Overrides take no row lock: the request read the row earlier, the service decides on the status `seen`
      then, and the save writes one column of the row as it is by now. */
  function ChangePlan(db: Db, i: nat, seen: Status, plan: Plan): Db {
    if i >= |db.subs| || seen.Canceled? then db
    else db.(subs := db.subs[i := db.subs[i].(plan := plan)])
  }

  function TransitionStatus(db: Db, i: nat, seen: Status, to: Status): Db {
    if i >= |db.subs| || !Legal(seen, to) then db
    else db.(subs := db.subs[i := db.subs[i].(status := to)])
  }

  // ---------- runs ----------

  datatype Op =
    | RecordOp(notice: Notice, now: int)
    | ProcessOp(event: nat, now: int)
    | CheckoutOp(tenant: nat, plan: Plan, answer: Option<string>, abandoned: bool, now: int)
    | UnlockedOp(event: nat, sub: nat, read: Sub, checkout: Option<Checkout>)
    | ConfirmOp(tenant: nat, now: int)
    | ChangePlanOp(sub: nat, seen: Status, plan: Plan)
    | TransitionOp(sub: nat, seen: Status, to: Status)

  function Step(db: Db, op: Op): Db {
    match op
    case RecordOp(n, now) => RecordEvent(db, n, now)
    case ProcessOp(i, now) => ProcessEvent(db, i, now).0
    case CheckoutOp(tenant, plan, answer, abandoned, now) => CreateCheckout(db, tenant, plan, answer, abandoned, now)
    case UnlockedOp(i, r, read, checkout) => ProcessUnlocked(db, i, r, read, checkout)
    case ConfirmOp(tenant, now) => ConfirmCheckout(db, tenant, now)
    case ChangePlanOp(i, seen, plan) => ChangePlan(db, i, seen, plan)
    case TransitionOp(i, seen, to) => TransitionStatus(db, i, seen, to)
  }

  function Run(db: Db, ops: seq<Op>): Db {
    if ops == [] then db else Step(Run(db, ops[..|ops| - 1]), ops[|ops| - 1])
  }

  /** A sweep of the listed events, in any order, at one clock reading. */
  function Sweep(order: seq<nat>, now: int): (r: seq<Op>)
    ensures |r| == |order| && forall k :: 0 <= k < |r| ==> r[k] == ProcessOp(order[k], now)
  {
    seq(|order|, k requires 0 <= k < |order| => ProcessOp(order[k], now))
  }
}
