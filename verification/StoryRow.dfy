/** The events of one checkout's mandate, and what they do to the one subscription row they are about: the
    whole of `process_event` seen from that row, whatever else is delivered and processed around it. */
module StoryRow {
  import opened Tables
  import opened Subscriptions
  import opened SubscriptionSafety
  import opened SubscriptionSweeps

  /** One checkout, the subscription its workspace already has if it is an upgrade, and what the provider sends
      for the mandate: activations, charges in order of their periods, failed payments. */
  datatype Story = Story(ext: string, checkout: Checkout, prior: Option<Sub>,
                         acts: seq<Notice>, charges: seq<Notice>, troubles: seq<Notice>)
  {
    function Start(j: nat): int
      requires j < |charges|
    {
      charges[j].periodStart.GetOr(0)
    }
    function End(j: nat): int
      requires j < |charges|
    {
      charges[j].periodEnd.GetOr(0)
    }
    function Stamp(j: nat): Option<int>
      requires j < |charges|
    {
      charges[j].createdAt
    }
    function All(): seq<Notice> { acts + charges + troubles }
  }

  ghost predicate UniqueKeys(notices: seq<Notice>) {
    forall j, k :: 0 <= j < k < |notices| ==> notices[j].key != notices[k].key
  }

  /** Charges carry pairwise non-overlapping periods, in order; their timestamps, where present, are ordered
      like the periods; delivery ids are unique; a subscription the workspace has is one to upgrade. */
  ghost predicate WellFormed(s: Story) {
    && s.checkout.ext == Some(s.ext) && UniqueKeys(s.All())
    && (forall n :: n in s.acts ==> n.kind.Activated? && n.ext == Some(s.ext))
    && (forall n :: n in s.troubles ==> n.kind.PaymentTrouble? && n.ext == Some(s.ext))
    && (forall n :: n in s.charges ==>
          n.kind.Charged? && n.ext == Some(s.ext) && n.periodStart.Some? && n.periodEnd.Some?)
    && (forall j :: 0 <= j < |s.charges| ==> s.Start(j) < s.End(j))
    && (forall j, k :: 0 <= j < k < |s.charges| ==> s.End(j) <= s.Start(k))
    && (forall j, k :: 0 <= j < k < |s.charges| && s.Stamp(j).Some? && s.Stamp(k).Some? ==>
          s.Stamp(j).value <= s.Stamp(k).value)
    && (s.prior.Some? ==>
          && s.prior.value.tenant == s.checkout.tenant && s.prior.value.ext != Some(s.ext)
          && !s.prior.value.status.Canceled?
          && Classify(s.prior.value.plan, s.checkout.plan).Upgrade?)
  }

  ghost predicate Tells(s: Story, n: Notice) { n in s.acts || n in s.charges || n in s.troubles }

  ghost predicate Keyed(s: Story, key: string) { exists n :: n in s.All() && n.key == key }

  /** An event of the subscription that is being upgraded. */
  ghost predicate OfPrior(s: Story, n: Notice) { s.prior.Some? && n.ext.Some? && n.ext == s.prior.value.ext }

  /** Deliveries for this provider id are the story's; others have other delivery ids, and are not about the
      subscription that is being upgraded. */
  ghost predicate Belongs(s: Story, n: Notice) {
    if n.ext == Some(s.ext) then Tells(s, n) else !Keyed(s, n.key) && !OfPrior(s, n)
  }

  ghost predicate Held(s: Story, e: Event) {
    if e.notice.ext == Some(s.ext) then Tells(s, e.notice)
    else !Keyed(s, e.notice.key) && (e.processed || !OfPrior(s, e.notice))
  }

  /** Deliveries and processing steps within one day from `since`, of any subscription; checkouts that do not ask
      for another plan in this workspace, confirmations, and blind writes of other workspaces' rows. */
  ghost predicate Allowed(db: Db, s: Story, since: int, op: Op) {
    match op
    case RecordOp(n, now) => Belongs(s, n) && since <= now <= since + DAY
    case ProcessOp(_, now) => since <= now <= since + DAY
    case CheckoutOp(tenant, plan, _, _, _) => tenant != s.checkout.tenant || plan.id == s.checkout.plan.id
    case ConfirmOp(_, _) => true
    case UnlockedOp(e, r, _, _) =>
      && (r < |db.subs| ==> db.subs[r].tenant != s.checkout.tenant)
      && (e < |db.events| ==> db.events[e].notice.ext != Some(s.ext))
    case _ => op.sub < |db.subs| ==> db.subs[op.sub].tenant != s.checkout.tenant
  }

  /** The workspace's checkout is still raised for this plan and id, whether or not it has been confirmed since. */
  ghost predicate Raised(checkouts: seq<Checkout>, c: Checkout) {
    exists k :: 0 <= k < |checkouts| && checkouts[k].tenant == c.tenant && checkouts[k].plan == c.plan
        && checkouts[k].ext == c.ext
  }

  /** The surroundings that no allowed step disturbs. */
  ghost predicate Setting(db: Db, s: Story, since: int) {
    && EventsUnique(db.events) && CheckoutsUnique(db.checkouts) && Raised(db.checkouts, s.checkout)
    && forall i :: 0 <= i < |db.events| ==>
         Held(s, db.events[i]) && (db.events[i].notice.ext == Some(s.ext) ==> db.events[i].receivedAt >= since)
  }

  /** Nobody but row r (none if r is out of range) has the workspace or the provider id. */
  ghost predicate Alone(subs: seq<Sub>, s: Story, r: int) {
    forall j :: 0 <= j < |subs| && j != r ==> subs[j].tenant != s.checkout.tenant && subs[j].ext != Some(s.ext)
  }

  /** The row of the story: None before its activation, when the workspace has at most the old subscription. */
  ghost predicate Standing(subs: seq<Sub>, s: Story, r: int, row: Option<Sub>) {
    && Alone(subs, s, r)
    && match row
       case Some(sub) =>
         && 0 <= r < |subs| && subs[r] == sub && sub.tenant == s.checkout.tenant && sub.ext == Some(s.ext)
         && (sub.status.Active? || sub.status.PastDue?)
       case None => if s.prior.None? then r == -1 else 0 <= r < |subs| && subs[r] == s.prior.value
  }

  // ---------- the row as a state machine ----------

  /** The row an activation processed at this clock produces. */
  function FirstRow(s: Story, clock: int): Sub {
    match s.prior
    case None =>
      var period := DefaultPeriod(s.checkout.plan, clock);
      Sub(s.checkout.tenant, s.checkout.plan, Active, Some(s.ext), None, period.0, period.1)
    case Some(sub) => sub.(plan := s.checkout.plan, ext := Some(s.ext), status := Active)
  }

  function Stamped(sub: Sub, n: Notice): Sub {
    if n.createdAt.Some? && (sub.mark.None? || n.createdAt.value > sub.mark.value) then sub.(mark := n.createdAt)
    else sub
  }

  function Turn(s: Story, row: Option<Sub>, n: Notice, now: int): Option<Sub> {
    match row
    case None => if n.kind.Activated? then Some(FirstRow(s, now)) else None
    case Some(sub) =>
      if IsStale(n, sub.mark) then row
      else
        match n.kind
        case Activated => if sub.status.PastDue? then Some(Stamped(sub.(status := Active), n)) else row
        case PaymentTrouble => if sub.status.Active? then Some(Stamped(sub.(status := PastDue), n)) else row
        case Charged =>
          if n.periodEnd.GetOr(0) <= sub.start then row
          else Some(Stamped(sub.(start := n.periodStart.GetOr(0), end := n.periodEnd.GetOr(0), status := Active), n))
        case _ => row
  }

  lemma Matched(subs: seq<Sub>, s: Story, r: int, row: Option<Sub>)
    requires WellFormed(s) && Standing(subs, s, r, row)
    ensures SubFor(subs, Some(s.ext)) == if row.Some? then Some(r as nat) else None
  {
    NoSubHas(subs, s.ext);
    hide Find; hide UniqueKeys;
  }

  lemma KnownKind(s: Story, n: Notice)
    requires WellFormed(s) && Tells(s, n)
    ensures n.ext == Some(s.ext)
    ensures n.kind.Activated? <==> n in s.acts
    ensures n.kind.Charged? <==> n in s.charges
    ensures n.kind.PaymentTrouble? <==> n in s.troubles
    ensures n.kind.Charged? ==> n.periodStart.Some? && n.periodEnd.Some?
    ensures n.kind.Activated? || n.kind.Charged? || n.kind.PaymentTrouble?
  {
    hide UniqueKeys;
  }

  /** Once the row exists, an event of the story turns it and touches no other row. */
  lemma MatchedTurn(db: Db, s: Story, r: int, sub: Sub, e: Event, now: int)
    requires WellFormed(s) && Standing(db.subs, s, r, Some(sub)) && Tells(s, e.notice)
    ensures var (subs', outcome) := Apply(db, e, now);
            && Standing(subs', s, r, Turn(s, Some(sub), e.notice, now)) && !outcome.Deferred?
  {
    KnownKind(s, e.notice);
    Matched(db.subs, s, r, Some(sub));
    hide WellFormed; hide SubFor; hide Find; hide Tells;
  }

  /** Before that, only an activation acts; a charge waits while it is young, a failed payment is dropped. */
  lemma UnmatchedTurn(db: Db, s: Story, since: int, r: int, e: Event, now: int) returns (r': int)
    requires WellFormed(s) && Setting(db, s, since) && Standing(db.subs, s, r, None) && Tells(s, e.notice)
    ensures var (subs', outcome) := Apply(db, e, now);
            && Standing(subs', s, r', Turn(s, None, e.notice, now))
            && (outcome.Deferred? <==> e.notice.kind.Charged? && now - e.receivedAt <= RETRY_WINDOW)
  {
    KnownKind(s, e.notice);
    Matched(db.subs, s, r, None);
    r' := r;
    if e.notice.kind.Activated? {
      r' := FirstTurn(db, s, since, r, e, now);
    }
    hide WellFormed; hide SubFor; hide Find; hide Tells; hide ActivateCheckout;
  }

  lemma TheCheckout(db: Db, s: Story, since: int)
    requires WellFormed(s) && Setting(db, s, since)
    ensures var k := Find(db.checkouts, ForExt(s.ext));
            k.Some? && db.checkouts[k.value].tenant == s.checkout.tenant
                && db.checkouts[k.value].plan == s.checkout.plan
  {
    var k := Find(db.checkouts, ForExt(s.ext));
    var j :| 0 <= j < |db.checkouts| && db.checkouts[j].tenant == s.checkout.tenant
             && db.checkouts[j].plan == s.checkout.plan && db.checkouts[j].ext == s.checkout.ext;
    assert ForExt(s.ext)(db.checkouts[j]);
    assert ForExt(s.ext)(db.checkouts[k.value]);
    hide Find; hide UniqueKeys; hide Held; hide EventsUnique;
  }

  lemma FirstTurn(db: Db, s: Story, since: int, r: int, e: Event, now: int) returns (r': int)
    requires WellFormed(s) && Setting(db, s, since) && Standing(db.subs, s, r, None)
    requires e.notice.kind.Activated? && e.notice.ext == Some(s.ext)
    ensures Standing(Apply(db, e, now).0, s, r', Some(FirstRow(s, now))) && Apply(db, e, now).1.Applied?
    ensures var row := FirstRow(s, now);
            && row.plan == s.checkout.plan && row.status.Active?
            && if s.prior.Some? then row.start == s.prior.value.start && row.end == s.prior.value.end
               else row.start == now && row.end - now == if row.plan.annual then 31536000000000 else 2592000000000
  {
    TheCheckout(db, s, since);
    Matched(db.subs, s, r, None);
    NoSubOf(db.subs, s.checkout.tenant);
    r' := if s.prior.None? then |db.subs| else r;
    hide Find; hide SubFor; hide Setting; hide UniqueKeys; hide Classify;
  }

  // ---------- other subscriptions' events ----------

  /** The workspace's one checkout carries the story's id, so another id's checkout is another workspace's. */
  lemma OtherCheckout(db: Db, s: Story, since: int, x: string)
    requires WellFormed(s) && Setting(db, s, since) && x != s.ext
    ensures var k := Find(db.checkouts, ForExt(x));
            k.Some? ==> db.checkouts[k.value].tenant != s.checkout.tenant
  {
    var k := Find(db.checkouts, ForExt(x));
    if k.Some? { assert ForExt(x)(db.checkouts[k.value]); }
    hide Find; hide UniqueKeys; hide Held; hide EventsUnique;
  }

  lemma OtherActivation(subs: seq<Sub>, c: Checkout, s: Story, r: int, row: Option<Sub>, x: string, now: int)
    requires Standing(subs, s, r, row) && c.tenant != s.checkout.tenant && x != s.ext
    requires s.prior.Some? ==> s.prior.value.tenant == s.checkout.tenant
    ensures Standing(ActivateCheckout(subs, c, x, now).0, s, r, row)
  {
    NoSubOf(subs, c.tenant);
    hide Find; hide Classify;
  }

  lemma OtherEvent(db: Db, s: Story, since: int, r: int, row: Option<Sub>, e: Event, now: int)
    requires WellFormed(s) && Setting(db, s, since) && Standing(db.subs, s, r, row)
    requires e.notice.ext != Some(s.ext) && !OfPrior(s, e.notice)
    ensures Standing(Apply(db, e, now).0, s, r, row)
  {
    OtherHandled(db, s, since, r, row, e, now);
    var before := SubFor(db.subs, e.notice.ext);
    assert before.Some? ==> before.value != r;
    hide Handle; hide SubFor; hide WellFormed; hide Setting;
  }

  lemma OtherHandled(db: Db, s: Story, since: int, r: int, row: Option<Sub>, e: Event, now: int)
    requires WellFormed(s) && Setting(db, s, since) && Standing(db.subs, s, r, row)
    requires e.notice.ext != Some(s.ext) && !OfPrior(s, e.notice)
    ensures Standing(Handle(db, e, now).0, s, r, row)
  {
    var before := SubFor(db.subs, e.notice.ext);
    assert before.Some? ==> before.value != r;
    assert s.prior.Some? ==> s.prior.value.tenant == s.checkout.tenant;
    if before.None? && e.notice.kind.Activated? && e.notice.ext.Some? {
      OtherCheckout(db, s, since, e.notice.ext.value);
      var k := Find(db.checkouts, ForExt(e.notice.ext.value));
      if k.Some? { OtherActivation(db.subs, db.checkouts[k.value], s, r, row, e.notice.ext.value, now); }
    }
    hide WellFormed; hide Setting; hide ActivateCheckout; hide SubFor; hide Find;
  }

  // ---------- one step of a run ----------

  /** Processing event i concerns the story's row. */
  ghost predicate Touches(db: Db, s: Story, op: Op) {
    op.ProcessOp? && op.event < |db.events| && !db.events[op.event].processed
        && db.events[op.event].notice.ext == Some(s.ext)
  }

  ghost function RowAfter(db: Db, s: Story, row: Option<Sub>, op: Op): Option<Sub> {
    if Touches(db, s, op) then Turn(s, row, db.events[op.event].notice, op.now) else row
  }

  /** A charge that found no row stays pending; every other event touched is settled. */
  ghost predicate EventsAfter(db: Db, s: Story, row: Option<Sub>, op: Op, events': seq<Event>) {
    match op
    case RecordOp(n, now) =>
      || (events' == db.events && exists i :: 0 <= i < |db.events| && db.events[i].notice.key == n.key)
      || (events' == db.events + [Event(n, now, false)] && forall i :: 0 <= i < |db.events| ==>
            db.events[i].notice.key != n.key)
    case ProcessOp(i, _) =>
      && EventsMove(db.events, events')
      && (forall j :: 0 <= j < |db.events| && j != i ==> events'[j] == db.events[j])
      && (Touches(db, s, op) ==> (events'[i].processed <==> row.Some? || !db.events[i].notice.kind.Charged?))
    case UnlockedOp(i, _, _, _) =>
      && EventsMove(db.events, events')
      && forall j :: 0 <= j < |db.events| && db.events[j].notice.ext == Some(s.ext) ==> events'[j] == db.events[j]
    case _ => events' == db.events
  }

  lemma RecordKeeps(db: Db, s: Story, since: int, n: Notice, now: int)
    requires Setting(db, s, since) && Allowed(db, s, since, RecordOp(n, now))
    ensures Setting(RecordEvent(db, n, now), s, since) && RecordEvent(db, n, now).subs == db.subs
    ensures EventsAfter(db, s, None, RecordOp(n, now), RecordEvent(db, n, now).events)
  {
    RecordUnique(db, n, now);
    var found := Find(db.events, HasEventKey(n.key));
    if found.Some? { assert HasEventKey(n.key)(db.events[found.value]); }
    if found.None? { assert forall i :: 0 <= i < |db.events| ==> !HasEventKey(n.key)(db.events[i]); }
    hide Find; hide Keyed; hide Tells; hide CheckoutsUnique; hide EventsUnique;
  }

  lemma ProcessKeeps(db: Db, s: Story, since: int, r: int, row: Option<Sub>, i: nat, now: int) returns (r': int)
    requires WellFormed(s) && Setting(db, s, since) && Standing(db.subs, s, r, row)
    requires Allowed(db, s, since, ProcessOp(i, now))
    ensures var (db', op) := (ProcessEvent(db, i, now).0, ProcessOp(i, now));
            && Setting(db', s, since) && Standing(db'.subs, s, r', RowAfter(db, s, row, op))
            && EventsAfter(db, s, row, op, db'.events)
  {
    r' := r;
    ProcessMoves(db, i, now);
    EventsStayUnique(db, i, now);
    if i < |db.events| && !db.events[i].processed {
      var e := db.events[i];
      assert Held(s, e);
      if e.notice.ext == Some(s.ext) {
        match row
        case None => r' := UnmatchedTurn(db, s, since, r, e, now);
        case Some(sub) => MatchedTurn(db, s, r, sub, e, now);
      } else {
        OtherEvent(db, s, since, r, row, e, now);
      }
    }
    hide Apply; hide WellFormed; hide Turn; hide Standing; hide Tells; hide Keyed; hide CheckoutsUnique;
    hide EventsUnique;
    hide Stuck; hide Retryable; hide OfPrior;
  }

  lemma EventsStayUnique(db: Db, i: nat, now: int)
    requires EventsUnique(db.events)
    ensures EventsUnique(ProcessEvent(db, i, now).0.events)
  {
    hide Apply;
  }

  lemma StoryStep(db: Db, s: Story, since: int, r: int, row: Option<Sub>, op: Op) returns (r': int)
    requires WellFormed(s) && Setting(db, s, since) && Standing(db.subs, s, r, row) && Allowed(db, s, since, op)
    ensures Setting(Step(db, op), s, since) && Standing(Step(db, op).subs, s, r', RowAfter(db, s, row, op))
    ensures EventsAfter(db, s, row, op, Step(db, op).events)
  {
    match op
    case RecordOp(n, now) =>
      RecordKeeps(db, s, since, n, now);
      r' := r;
      hide RecordEvent; hide Setting; hide Standing; hide WellFormed;
    case ProcessOp(i, now) =>
      r' := ProcessKeeps(db, s, since, r, row, i, now);
      hide ProcessEvent; hide Setting; hide Standing; hide WellFormed; hide EventsAfter; hide RowAfter;
    case CheckoutOp(tenant, plan, answer, abandoned, now) =>
      CheckoutKeeps(db, s, since, tenant, plan, answer, abandoned, now);
      r' := r;
      hide CreateCheckout; hide Setting; hide Standing; hide WellFormed;
    case ConfirmOp(tenant, now) =>
      ConfirmKeeps(db, s, since, tenant, now);
      r' := r;
      hide ConfirmCheckout; hide Setting; hide Standing; hide WellFormed;
    case _ =>
      BlindKeeps(db, s, since, r, row, op);
      r' := r;
      hide Step; hide Setting; hide Standing; hide WellFormed; hide EventsAfter;
  }

  lemma CheckoutKeeps(db: Db, s: Story, since: int, tenant: nat, plan: Plan, answer: Option<string>, abandoned: bool,
                      now: int)
    requires WellFormed(s) && Setting(db, s, since)
    requires tenant != s.checkout.tenant || plan.id == s.checkout.plan.id
    ensures var db' := CreateCheckout(db, tenant, plan, answer, abandoned, now);
            Setting(db', s, since) && db'.subs == db.subs && db'.events == db.events
  {
    CheckoutUnique(db, tenant, plan, answer, abandoned, now);
    CheckoutLeaves(db, tenant, plan, answer, abandoned, now);
    var mine := Find(db.checkouts, OwnedBy(tenant));
    var k :| 0 <= k < |db.checkouts| && db.checkouts[k].tenant == s.checkout.tenant
             && db.checkouts[k].plan == s.checkout.plan && db.checkouts[k].ext == s.checkout.ext;
    if mine.Some? { assert OwnedBy(tenant)(db.checkouts[mine.value]); }
    if tenant == s.checkout.tenant {
      assert OwnedBy(tenant)(db.checkouts[k]);
      assert mine == Some(k);
    } else {
      var db' := CreateCheckout(db, tenant, plan, answer, abandoned, now);
      assert db'.checkouts[k] == db.checkouts[k];
    }
    hide Find; hide UniqueKeys; hide Held; hide EventsUnique; hide CheckoutsUnique;
  }

  lemma ConfirmKeeps(db: Db, s: Story, since: int, tenant: nat, now: int)
    requires Setting(db, s, since)
    ensures var db' := ConfirmCheckout(db, tenant, now);
            Setting(db', s, since) && db'.subs == db.subs && db'.events == db.events
  {
    var db' := ConfirmCheckout(db, tenant, now);
    var k :| 0 <= k < |db.checkouts| && db.checkouts[k].tenant == s.checkout.tenant
             && db.checkouts[k].plan == s.checkout.plan && db.checkouts[k].ext == s.checkout.ext;
    assert db'.checkouts[k].plan == s.checkout.plan && db'.checkouts[k].ext == s.checkout.ext;
    hide Find; hide Held; hide EventsUnique;
  }

  /** A blind write of another workspace's row. */
  lemma BlindKeeps(db: Db, s: Story, since: int, r: int, row: Option<Sub>, op: Op)
    requires WellFormed(s) && Setting(db, s, since) && Standing(db.subs, s, r, row) && Allowed(db, s, since, op)
    requires IsBlind(op)
    ensures Setting(Step(db, op), s, since) && Standing(Step(db, op).subs, s, r, row)
    ensures EventsAfter(db, s, row, op, Step(db, op).events)
  {
    BlindRows(db, s, op);
    BlindEvents(db, s, since, op);
    hide Step; hide Setting; hide UniqueKeys; hide Classify;
  }

  lemma BlindRows(db: Db, s: Story, op: Op)
    requires IsBlind(op) && Allowed(db, s, 0, op)
    ensures var subs' := Step(db, op).subs;
            && |subs'| == |db.subs|
            && forall j :: 0 <= j < |db.subs| ==>
                 && subs'[j].tenant == db.subs[j].tenant
                 && (subs'[j].ext == db.subs[j].ext || subs'[j].ext != Some(s.ext))
                 && (subs'[j].tenant == s.checkout.tenant ==> subs'[j] == db.subs[j])
  {
    hide IdFree; hide Legal; hide Classify; hide DefaultPeriod;
  }

  lemma BlindEvents(db: Db, s: Story, since: int, op: Op)
    requires IsBlind(op) && Allowed(db, s, since, op) && Setting(db, s, since)
    ensures Setting(Step(db, op), s, since) && EventsAfter(db, s, None, op, Step(db, op).events)
  {
    hide IdFree; hide Legal; hide DecideOn; hide ReadAs; hide Keyed; hide Tells; hide OfPrior; hide CheckoutsUnique;
    hide Raised;
  }

  // ---------- when the row is created ----------

  /** Step k of the run, at this clock, creates the subscription with this id or upgrades one to it. */
  ghost predicate CreatesAt(db: Db, ops: seq<Op>, x: string, k: nat, clock: int)
    requires k < |ops|
  {
    && ops[k].ProcessOp? && ops[k].now == clock
    && SubFor(Run(db, ops[..k]).subs, Some(x)).None? && SubFor(Run(db, ops[..k + 1]).subs, Some(x)).Some?
  }

  /** The clock of a step that does. */
  ghost predicate CreatedAt(db: Db, ops: seq<Op>, x: string, clock: int) {
    exists k :: 0 <= k < |ops| && CreatesAt(db, ops, x, k, clock)
  }

  lemma SameInPrefix(db: Db, ops: seq<Op>, x: string, k: nat, n: nat, clock: int)
    requires k < n <= |ops|
    ensures CreatesAt(db, ops[..n], x, k, clock) <==> CreatesAt(db, ops, x, k, clock)
  {
    assert ops[..n][..k] == ops[..k] && ops[..n][..k + 1] == ops[..k + 1];
    hide SubFor; hide Run;
  }

  lemma CreatedSplits(db: Db, ops: seq<Op>, x: string, clock: int)
    requires ops != []
    ensures var n := |ops| - 1;
            CreatedAt(db, ops, x, clock) <==> CreatedAt(db, ops[..n], x, clock) || CreatesAt(db, ops, x, n, clock)
  {
    var n := |ops| - 1;
    hide CreatesAt;
    if k :| 0 <= k < n && CreatesAt(db, ops[..n], x, k, clock) { SameInPrefix(db, ops, x, k, n, clock); }
    if k :| 0 <= k < n && CreatesAt(db, ops, x, k, clock) { SameInPrefix(db, ops, x, k, n, clock); }
  }
}
