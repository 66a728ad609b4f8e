/** What every run of webhooks, sweeps, checkouts and manual overrides keeps, whatever the order. */
module SubscriptionSafety {
  import opened Tables
  import opened Subscriptions

  // ---------- one row, one step ----------

  /** A subscription row keeps its workspace, never changes once canceled, and its mark never goes back. */
  ghost predicate RowMoves(s: Sub, s': Sub) {
    && s'.tenant == s.tenant
    && (s.status.Canceled? ==> s' == s)
    && (s.mark.Some? ==> s'.mark.Some? && s'.mark.value >= s.mark.value)
  }

  ghost predicate RowsMove(subs: seq<Sub>, subs': seq<Sub>) {
    |subs| <= |subs'| && forall i :: 0 <= i < |subs| ==> RowMoves(subs[i], subs'[i])
  }

  /** What the handlers do: marks stay, canceled rows stay, and only a matched live row can be Applied to. */
  lemma HandleMoves(db: Db, e: Event, now: int)
    ensures var (subs', outcome) := Handle(db, e, now);
            var before := SubFor(db.subs, e.notice.ext);
            && |db.subs| <= |subs'|
            && (forall i :: 0 <= i < |db.subs| ==> RowMoves(db.subs[i], subs'[i]) && subs'[i].mark == db.subs[i].mark)
            && (before.Some? && outcome.Applied? ==> !db.subs[before.value].status.Canceled?)
  {
    hide Find; hide Classify;
  }

  lemma ApplyMoves(db: Db, e: Event, now: int)
    ensures RowsMove(db.subs, Apply(db, e, now).0)
  {
    hide Handle; hide SubFor;
    HandleMoves(db, e, now);
  }

  /** What is decided on a row read earlier without a lock: overrides, and events that matched nothing to lock. */
  predicate IsBlind(op: Op) { op.ChangePlanOp? || op.TransitionOp? || op.UnlockedOp? }

  /** Events under the row lock, sweeps of them and checkouts never touch a canceled row. */
  lemma StepMoves(db: Db, op: Op)
    requires !IsBlind(op)
    ensures RowsMove(db.subs, Step(db, op).subs)
  {
    hide Apply; hide Find;
    match op
    case ProcessOp(i, now) => if i < |db.events| { ApplyMoves(db, db.events[i], now); }
    case _ =>
  }

  ghost predicate MarksMove(subs: seq<Sub>, subs': seq<Sub>) {
    && |subs| <= |subs'|
    && forall i :: 0 <= i < |subs| ==>
         && subs'[i].tenant == subs[i].tenant
         && (subs[i].mark.Some? ==> subs'[i].mark.Some? && subs'[i].mark.value >= subs[i].mark.value)
  }

  lemma StepMarks(db: Db, op: Op)
    ensures MarksMove(db.subs, Step(db, op).subs)
  {
    if !IsBlind(op) { StepMoves(db, op); }
    hide Apply; hide Find; hide Legal; hide DecideOn; hide ReadAs; hide IdFree;
  }

  /** Over every run, whatever blind writes it contains, no row changes its workspace and no mark goes back. */
  lemma {:induction false} RunsMoveForward(db: Db, ops: seq<Op>)
    ensures MarksMove(db.subs, Run(db, ops).subs)
  {
    if ops != [] {
      hide Step;
      RunsMoveForward(db, ops[..|ops| - 1]);
      StepMarks(Run(db, ops[..|ops| - 1]), ops[|ops| - 1]);
    }
  }

  // ---------- canceled rows ----------

  /** A blind write that goes through to row i. An event must still be pending, must have read a row of that
      workspace as it says, and the provider id it adopts must be free. */
  predicate WritesBlindly(db: Db, op: Op, i: nat) {
    && IsBlind(op) && op.sub == i < |db.subs|
    && (op.UnlockedOp? ==>
          && op.event < |db.events| && !db.events[op.event].processed
          && ReadAs(db.subs[i], op.read, db.events[op.event].notice, op.checkout)
          && IdFree(db.subs, i, DecideOn(op.read, db.events[op.event].notice, op.checkout).ext))
  }

  /** The columns it saves: decided on what was read, not on what is there. */
  function Decided(db: Db, op: Op): Saved {
    match op
    case ChangePlanOp(_, seen, plan) => if seen.Canceled? then NOTHING else NOTHING.(plan := Some(plan))
    case TransitionOp(_, seen, to) => if Legal(seen, to) then NOTHING.(status := Some(to)) else NOTHING
    case UnlockedOp(e, _, read, checkout) =>
      if e < |db.events| then DecideOn(read, db.events[e].notice, checkout) else NOTHING
    case _ => NOTHING
  }

  /** Each of these columns already has that value. */
  predicate Harmless(w: Saved, row: Sub) {
    && (w.plan.Some? ==> w.plan.value == row.plan) && (w.ext.Some? ==> w.ext == row.ext)
    && (w.status.Some? ==> w.status.value == row.status) && (w.period.Some? ==> w.period.value == (row.start, row.end))
  }

  lemma BlindStep(db: Db, op: Op, i: nat)
    requires IsBlind(op) && i < |db.subs|
    ensures |Step(db, op).subs| == |db.subs|
    ensures Step(db, op).subs[i] == if WritesBlindly(db, op, i) then SaveOn(db.subs[i], Decided(db, op)) else db.subs[i]
  {
    hide DecideOn; hide ReadAs; hide IdFree;
  }

  /** One step leaves a canceled row as it is if and only if it is no blind write to it or saves only what is
      there. */
  lemma StepFreezesExactly(db: Db, op: Op, i: nat)
    requires i < |db.subs| && db.subs[i].status.Canceled?
    ensures i < |Step(db, op).subs|
    ensures Step(db, op).subs[i] == db.subs[i] <==> (WritesBlindly(db, op, i) ==> Harmless(Decided(db, op), db.subs[i]))
  {
    if IsBlind(op) { BlindStep(db, op, i); } else { StepMoves(db, op); }
    hide Step; hide Decided;
  }

  /** Of the blind writes that go through to a canceled row, an event's is harmless exactly when it is another
      cancellation, decides nothing, or had read the row ACTIVE and saves the present plan, id or period again. */
  lemma UnlockedHarmlessExactly(read: Sub, n: Notice, checkout: Option<Checkout>, row: Sub)
    requires ReadAs(row, read, n, checkout) && row.status.Canceled?
    ensures var upgrade := checkout.Some? && read.plan.id != checkout.value.plan.id
                           && Classify(read.plan, checkout.value.plan).Upgrade?;
            var late := n.periodStart.Some? && n.periodEnd.Some? && n.periodEnd.value <= read.start;
            Harmless(DecideOn(read, n, checkout), row)
            <==> match n.kind
                 case Activated =>
                   || read.status.Canceled?
                   || (read.status.Active? && (upgrade ==>
                         row.plan == checkout.value.plan && (read.ext == n.ext || row.ext == n.ext)))
                 case Charged =>
                   || read.status.Canceled? || late
                   || (read.status.Active? && DecideOn(read, n, checkout).period == Some((row.start, row.end)))
                 case PaymentTrouble => !read.status.Active?
                 case _ => true
  {
    hide Classify; hide DefaultPeriod;
  }

  ghost predicate FrozenThroughout(db: Db, ops: seq<Op>, i: nat)
    requires i < |db.subs|
  {
    forall k :: 0 <= k <= |ops| ==> i < |Run(db, ops[..k]).subs| && Run(db, ops[..k]).subs[i] == db.subs[i]
  }

  ghost predicate BlindWritesHarmless(db: Db, ops: seq<Op>, i: nat)
    requires i < |db.subs|
  {
    forall j :: 0 <= j < |ops| && WritesBlindly(Run(db, ops[..j]), ops[j], i) ==>
      Harmless(Decided(Run(db, ops[..j]), ops[j]), db.subs[i])
  }

  lemma RunStep(db: Db, ops: seq<Op>, k: nat)
    requires k < |ops|
    ensures Run(db, ops[..k + 1]) == Step(Run(db, ops[..k]), ops[k])
  {
    assert ops[..k + 1][..k] == ops[..k];
    hide Step;
  }

  lemma {:induction false} HarmlessKeepsFrozen(db: Db, ops: seq<Op>, i: nat, k: nat)
    requires i < |db.subs| && db.subs[i].status.Canceled? && k <= |ops|
    requires BlindWritesHarmless(db, ops, i)
    ensures i < |Run(db, ops[..k]).subs| && Run(db, ops[..k]).subs[i] == db.subs[i]
  {
    hide Step; hide WritesBlindly; hide Harmless; hide Decided;
    if k > 0 {
      HarmlessKeepsFrozen(db, ops, i, k - 1);
      RunStep(db, ops, k - 1);
      hide Run;
      StepFreezesExactly(Run(db, ops[..k - 1]), ops[k - 1], i);
    }
  }

  /** A canceled subscription is frozen in every field throughout a run if and only if every blind write to it in
      that run, an override or an event that matched nothing to lock, saves only what is there. Events under the
      row lock and checkouts need no condition. */
  lemma CanceledFrozenExactly(db: Db, ops: seq<Op>, i: nat)
    requires i < |db.subs| && db.subs[i].status.Canceled?
    ensures FrozenThroughout(db, ops, i) <==> BlindWritesHarmless(db, ops, i)
  {
    hide Step; hide Run; hide Harmless; hide WritesBlindly; hide Decided;
    if FrozenThroughout(db, ops, i) {
      forall j | 0 <= j < |ops| && WritesBlindly(Run(db, ops[..j]), ops[j], i)
        ensures Harmless(Decided(Run(db, ops[..j]), ops[j]), db.subs[i])
      {
        RunStep(db, ops, j);
        assert Run(db, ops[..j]).subs[i] == db.subs[i] && Run(db, ops[..j + 1]).subs[i] == db.subs[i];
        StepFreezesExactly(Run(db, ops[..j]), ops[j], i);
      }
    } else {
      var k :| 0 <= k <= |ops| && !(i < |Run(db, ops[..k]).subs| && Run(db, ops[..k]).subs[i] == db.subs[i]);
      if BlindWritesHarmless(db, ops, i) {
        HarmlessKeepsFrozen(db, ops, i, k);
        assert false;
      }
    }
  }

  // ---------- unique rows ----------

  ghost predicate SubsUnique(subs: seq<Sub>) {
    && (forall i, j :: 0 <= i < j < |subs| ==> subs[i].tenant != subs[j].tenant)
    && (forall i, j :: 0 <= i < j < |subs| && subs[i].ext.Some? ==> subs[i].ext != subs[j].ext)
  }

  ghost predicate CheckoutsUnique(checkouts: seq<Checkout>) {
    && (forall i, j :: 0 <= i < j < |checkouts| ==> checkouts[i].tenant != checkouts[j].tenant)
    && (forall i, j :: 0 <= i < j < |checkouts| && checkouts[i].ext.Some? ==> checkouts[i].ext != checkouts[j].ext)
  }

  ghost predicate EventsUnique(events: seq<Event>) {
    forall i, j :: 0 <= i < j < |events| ==> events[i].notice.key != events[j].notice.key
  }

  ghost predicate Unique(db: Db) { SubsUnique(db.subs) && CheckoutsUnique(db.checkouts) && EventsUnique(db.events) }

  lemma NoSubHas(subs: seq<Sub>, x: string)
    ensures SubFor(subs, Some(x)).None? <==> forall j :: 0 <= j < |subs| ==> subs[j].ext != Some(x)
  {
    assert SubFor(subs, Some(x)).None? ==> forall j :: 0 <= j < |subs| ==> !HasExt(x)(subs[j]);
  }

  lemma NoSubOf(subs: seq<Sub>, t: nat)
    ensures Find(subs, OfTenant(t)).None? <==> forall j :: 0 <= j < |subs| ==> subs[j].tenant != t
    ensures Find(subs, OfTenant(t)).Some? ==> subs[Find(subs, OfTenant(t)).value].tenant == t
  {
    assert Find(subs, OfTenant(t)).None? ==> forall j :: 0 <= j < |subs| ==> !OfTenant(t)(subs[j]);
    assert Find(subs, OfTenant(t)).Some? ==> OfTenant(t)(subs[Find(subs, OfTenant(t)).value]);
  }

  lemma ActivateUnique(subs: seq<Sub>, c: Checkout, x: string, now: int)
    requires SubsUnique(subs) && SubFor(subs, Some(x)).None?
    ensures SubsUnique(ActivateCheckout(subs, c, x, now).0)
  {
    NoSubHas(subs, x);
    NoSubOf(subs, c.tenant);
    hide Find; hide SubFor; hide Classify;
  }

  lemma HandleUnique(db: Db, e: Event, now: int)
    requires SubsUnique(db.subs)
    ensures SubsUnique(Handle(db, e, now).0)
  {
    hide Find; hide SubFor; hide ActivateCheckout;
    var before := SubFor(db.subs, e.notice.ext);
    if e.notice.kind.Activated? && before.None? && e.notice.ext.Some? {
      var k := Find(db.checkouts, ForExt(e.notice.ext.value));
      if k.Some? { ActivateUnique(db.subs, db.checkouts[k.value], e.notice.ext.value, now); }
    }
  }

  lemma ApplyUnique(db: Db, e: Event, now: int)
    requires SubsUnique(db.subs)
    ensures SubsUnique(Apply(db, e, now).0)
  {
    hide Handle; hide SubFor;
    HandleUnique(db, e, now);
  }

  lemma CheckoutUnique(db: Db, tenant: nat, plan: Plan, answer: Option<string>, abandoned: bool, now: int)
    requires CheckoutsUnique(db.checkouts)
    ensures CheckoutsUnique(CreateCheckout(db, tenant, plan, answer, abandoned, now).checkouts)
  {
    var rows := db.checkouts;
    var mine := Find(rows, OwnedBy(tenant));
    assert mine.None? ==> forall j :: 0 <= j < |rows| ==> !OwnedBy(tenant)(rows[j]);
    assert mine.Some? ==> OwnedBy(tenant)(rows[mine.value]);
    if answer.Some? && Find(rows, ForExt(answer.value)).None? {
      assert forall j :: 0 <= j < |rows| ==> !ForExt(answer.value)(rows[j]);
    }
    hide Find;
  }

  lemma RecordUnique(db: Db, n: Notice, now: int)
    requires EventsUnique(db.events)
    ensures EventsUnique(RecordEvent(db, n, now).events)
  {
    if Find(db.events, HasEventKey(n.key)).None? {
      assert forall j :: 0 <= j < |db.events| ==> !HasEventKey(n.key)(db.events[j]);
    }
  }

  lemma StepUnique(db: Db, op: Op)
    requires Unique(db)
    ensures Unique(Step(db, op))
  {
    hide Apply; hide CreateCheckout; hide RecordEvent; hide Find;
    match op
    case RecordOp(n, now) => RecordUnique(db, n, now); RecordLeaves(db, n, now);
    case ProcessOp(i, now) => if i < |db.events| { ApplyUnique(db, db.events[i], now); }
    case CheckoutOp(tenant, plan, answer, abandoned, now) =>
      CheckoutUnique(db, tenant, plan, answer, abandoned, now);
      CheckoutLeaves(db, tenant, plan, answer, abandoned, now);
    case UnlockedOp(i, r, read, checkout) => UnlockedUnique(db, i, r, read, checkout);
    case _ =>
  }

  lemma UnlockedUnique(db: Db, i: nat, r: nat, read: Sub, checkout: Option<Checkout>)
    requires Unique(db)
    ensures Unique(ProcessUnlocked(db, i, r, read, checkout))
  {
    hide DecideOn;
  }

  lemma RecordLeaves(db: Db, n: Notice, now: int)
    ensures var db' := RecordEvent(db, n, now); db'.subs == db.subs && db'.checkouts == db.checkouts
  {
  }

  lemma CheckoutLeaves(db: Db, tenant: nat, plan: Plan, answer: Option<string>, abandoned: bool, now: int)
    ensures var db' := CreateCheckout(db, tenant, plan, answer, abandoned, now);
            db'.subs == db.subs && db'.events == db.events
  {
  }

  /** One subscription per workspace and per provider id, one checkout per workspace and per provider id,
      one event per delivery id, over every run. */
  lemma {:induction false} RunsStayUnique(db: Db, ops: seq<Op>)
    requires Unique(db)
    ensures Unique(Run(db, ops))
  {
    hide Unique; hide Step;
    if ops != [] {
      RunsStayUnique(db, ops[..|ops| - 1]);
      StepUnique(Run(db, ops[..|ops| - 1]), ops[|ops| - 1]);
    }
  }

  // ---------- at most once ----------

  predicate Applies(db: Db, op: Op, key: string) {
    && (op.ProcessOp? || op.UnlockedOp?) && op.event < |db.events| && db.events[op.event].notice.key == key
    && if op.ProcessOp? then ProcessEvent(db, op.event, op.now).1.Applied? else WritesBlindly(db, op, op.sub)
  }

  /** How often the event with this delivery id took effect. */
  function Applications(db: Db, ops: seq<Op>, key: string): nat {
    if ops == [] then 0
    else Applications(db, ops[..|ops| - 1], key)
         + if Applies(Run(db, ops[..|ops| - 1]), ops[|ops| - 1], key) then 1 else 0
  }

  ghost predicate Spent(events: seq<Event>, key: string) {
    exists i :: 0 <= i < |events| && events[i].notice.key == key && events[i].processed
  }

  lemma StepSpends(db: Db, op: Op, key: string)
    requires EventsUnique(db.events)
    ensures Spent(db.events, key) ==> Spent(Step(db, op).events, key) && !Applies(db, op, key)
    ensures Applies(db, op, key) ==> Spent(Step(db, op).events, key)
  {
    hide Apply; hide Find; hide DecideOn; hide ReadAs; hide IdFree;
    if i :| 0 <= i < |db.events| && db.events[i].notice.key == key && db.events[i].processed {
      assert Step(db, op).events[i] == db.events[i];
    }
    if Applies(db, op, key) { assert Step(db, op).events[op.event].processed; }
  }

  /** However often an event is delivered, processed inline or swept, it takes effect at most once. */
  lemma {:induction false} AppliedAtMostOnce(db: Db, ops: seq<Op>, key: string)
    requires Unique(db)
    ensures Applications(db, ops, key) <= 1
    ensures Applications(db, ops, key) == 1 || Spent(db.events, key) ==> Spent(Run(db, ops).events, key)
    ensures Spent(db.events, key) ==> Applications(db, ops, key) == 0
  {
    hide Step; hide Spent; hide Applies; hide EventsUnique;
    if ops != [] {
      var init := ops[..|ops| - 1];
      AppliedAtMostOnce(db, init, key);
      RunsStayUnique(db, init);
      StepSpends(Run(db, init), ops[|ops| - 1], key);
    }
  }

  // ---------- chronological effect ----------

  /** The provider timestamp with which this step took effect on row r, found by its provider id. */
  function Stamp(db: Db, op: Op, r: nat): Option<int> {
    if op.ProcessOp? && op.event < |db.events| && !db.events[op.event].processed
       && !db.events[op.event].notice.kind.Cancelled?
       && SubFor(db.subs, db.events[op.event].notice.ext) == Some(r) && ProcessEvent(db, op.event, op.now).1.Applied?
    then db.events[op.event].notice.createdAt else None
  }

  function Stamps(db: Db, ops: seq<Op>, r: nat): seq<int> {
    if ops == [] then []
    else
      var init := ops[..|ops| - 1];
      var stamp := Stamp(Run(db, init), ops[|ops| - 1], r);
      Stamps(db, init, r) + if stamp.Some? then [stamp.value] else []
  }

  /** An event that takes effect is not older than the mark, and the mark catches up with it. */
  lemma StampAdvancesMark(db: Db, op: Op, r: nat)
    requires Stamp(db, op, r).Some?
    ensures r < |db.subs| && r < |Step(db, op).subs|
    ensures var t, mark, mark' := Stamp(db, op, r).value, db.subs[r].mark, Step(db, op).subs[r].mark;
            (mark.Some? ==> mark.value <= t) && mark'.Some? && mark'.value >= t
  {
    hide Handle; hide SubFor;
    HandleMoves(db, db.events[op.event], op.now);
  }

  /** A nondecreasing history that the mark has caught up with. */
  ghost predicate Chronological(stamps: seq<int>, mark: Option<int>) {
    && (forall i, j :: 0 <= i < j < |stamps| ==> stamps[i] <= stamps[j])
    && (stamps != [] ==> mark.Some? && stamps[|stamps| - 1] <= mark.value)
  }

  lemma ChronologicalStep(stamps: seq<int>, mark: Option<int>, t: Option<int>, mark': Option<int>)
    requires Chronological(stamps, mark)
    requires mark.Some? ==> mark'.Some? && mark'.value >= mark.value
    requires t.Some? ==> (mark.Some? ==> mark.value <= t.value) && mark'.Some? && mark'.value >= t.value
    ensures Chronological(stamps + if t.Some? then [t.value] else [], mark')
  {
  }

  lemma MarkMoves(db: Db, op: Op, r: nat)
    requires r < |db.subs|
    ensures r < |Step(db, op).subs|
    ensures var mark, mark' := db.subs[r].mark, Step(db, op).subs[r].mark;
            mark.Some? ==> mark'.Some? && mark'.value >= mark.value
  {
    hide Step;
    StepMarks(db, op);
  }

  /** Timed events other than cancellations that locked the subscription they match take effect on it in the order
      the provider made them, whatever the order of delivery, retries, sweeps and blind writes. */
  lemma {:induction false} EffectsAreChronological(db: Db, ops: seq<Op>, r: nat)
    requires r < |db.subs|
    ensures r < |Run(db, ops).subs|
    ensures Chronological(Stamps(db, ops, r), Run(db, ops).subs[r].mark)
  {
    hide Step; hide Stamp; hide Chronological;
    if ops == [] {
      assert Chronological([], db.subs[r].mark) by { ChronologicalStart(db.subs[r].mark); }
    } else {
      var init, last := ops[..|ops| - 1], ops[|ops| - 1];
      EffectsAreChronological(db, init, r);
      MarkMoves(Run(db, init), last, r);
      var t := Stamp(Run(db, init), last, r);
      if t.Some? { StampAdvancesMark(Run(db, init), last, r); }
      ChronologicalStep(Stamps(db, init, r), Run(db, init).subs[r].mark, t, Run(db, ops).subs[r].mark);
    }
  }

  lemma ChronologicalStart(mark: Option<int>)
    ensures Chronological([], mark)
  {
  }

  // ---------- the state machine ----------

  /** A step moves a status along the table of legal transitions, or not at all, if and only if it does not
      blindly write a status that is illegal after the present one. */
  lemma StatusMovesLegallyExactly(db: Db, op: Op, i: nat)
    requires i < |db.subs|
    ensures i < |Step(db, op).subs|
    ensures var s, s' := db.subs[i], Step(db, op).subs[i];
            (s'.status == s.status || Legal(s.status, s'.status))
            <==> (WritesBlindly(db, op, i) && Decided(db, op).status.Some? ==>
                    var to := Decided(db, op).status.value;
                    to == s.status || Legal(s.status, to))
  {
    if IsBlind(op) {
      BlindStep(db, op, i);
      hide Step; hide Decided; hide WritesBlindly; hide Legal;
    } else {
      LockedStatus(db, op, i);
      hide Step; hide Decided;
    }
  }

  lemma LockedStatus(db: Db, op: Op, i: nat)
    requires i < |db.subs| && !IsBlind(op)
    ensures i < |Step(db, op).subs|
    ensures var s, s' := db.subs[i], Step(db, op).subs[i]; s'.status == s.status || Legal(s.status, s'.status)
  {
    hide Find; hide Classify; hide Abandoned;
  }

  /** A matching cancellation is never stale: processing it cancels the row and changes nothing else. From then
      on the row stays as it is throughout a run if and only if every blind write to it is harmless. */
  lemma CancellationIsFinalExactly(db: Db, i: nat, now: int, r: nat, ops: seq<Op>)
    requires i < |db.events| && !db.events[i].processed && db.events[i].notice.kind.Cancelled?
    requires SubFor(db.subs, db.events[i].notice.ext) == Some(r)
    ensures var db' := ProcessEvent(db, i, now).0;
            && r < |db'.subs| && db'.subs[r] == db.subs[r].(status := Canceled, mark := db'.subs[r].mark)
            && (FrozenThroughout(db', ops, r) <==> BlindWritesHarmless(db', ops, r))
  {
    var db' := ProcessEvent(db, i, now).0;
    assert r < |db'.subs|
        && db'.subs[r] == db.subs[r].(status := Canceled, mark := db'.subs[r].mark) by { hide SubFor; }
    hide ProcessEvent; hide SubFor; hide FrozenThroughout; hide BlindWritesHarmless;
    CanceledFrozenExactly(db', ops, r);
  }

  // ---------- events that matched nothing to lock ----------

  /** When the row has not moved since it was read, this is what one atomic step of the same activation does. */
  lemma UnlockedAgrees(db: Db, i: nat, now: int, k: nat, r: nat)
    requires Unique(db) && i < |db.events| && !db.events[i].processed && db.events[i].notice.kind.Activated?
    requires SubFor(db.subs, db.events[i].notice.ext).None? && k < |db.checkouts| && r < |db.subs|
    requires db.events[i].notice.ext.Some? && db.checkouts[k].ext == db.events[i].notice.ext
    requires db.subs[r].tenant == db.checkouts[k].tenant
    ensures ProcessUnlocked(db, i, r, db.subs[r], Some(db.checkouts[k])) == ProcessEvent(db, i, now).0
  {
    var n := db.events[i].notice;
    var x := n.ext.value;
    NoSubHas(db.subs, x);
    NoSubOf(db.subs, db.checkouts[k].tenant);
    assert ForExt(x)(db.checkouts[k]);
    var found := Find(db.checkouts, ForExt(x));
    assert ForExt(x)(db.checkouts[found.value]);
    assert found == Some(k) && Find(db.subs, OfTenant(db.checkouts[k].tenant)) == Some(r);
    hide Find; hide SubFor; hide Classify; hide DefaultPeriod;
  }

  /** And for an event that found the row by its id: the same effect as under the lock, without guard and mark. */
  lemma UnlockedHandlesAlike(db: Db, i: nat, now: int, r: nat)
    requires i < |db.events| && !db.events[i].processed && SubFor(db.subs, db.events[i].notice.ext) == Some(r)
    ensures ProcessUnlocked(db, i, r, db.subs[r], None).subs == Handle(db, db.events[i], now).0
  {
    hide Find; hide SubFor; hide DefaultPeriod;
  }

  // ---------- plans ----------

  ghost predicate HigherTier(new': Plan, current: Plan) {
    current.tier.Basic? && new'.tier.Pro?
  }

  /** Only a move up to a known higher tier is an upgrade; the same plan is no change; all else is refused, as a
      downgrade from PRO to BASIC, a cycle change within a tier, or not supported for a plan without tier. */
  lemma ClassifyExactly(current: Plan, new': Plan)
    ensures Classify(current, new').NoOp? <==> current.id == new'.id
    ensures Classify(current, new').Upgrade? <==> current.id != new'.id && HigherTier(new', current)
    ensures Classify(current, new').Refuse? <==> current.id != new'.id && !HigherTier(new', current)
    ensures Classify(current, new').Refuse? ==>
              Classify(current, new').code ==
                if current.tier.Unclassified? || new'.tier.Unclassified? then PlanChangeNotSupported
                else if current.tier == new'.tier then CycleChangeNotSupported else DowngradeNotSupported
  {
  }

  /** The row an event's step decided on: the locked one, or what was read without a lock. */
  function ReadBy(db: Db, op: Op, i: nat): Sub
    requires i < |db.subs|
  {
    if op.UnlockedOp? && op.sub == i then op.read else db.subs[i]
  }

  /** The checkouts an event's step may know: the present ones, and the one it read. */
  predicate Knows(db: Db, op: Op, c: Checkout) { c in db.checkouts || (op.UnlockedOp? && op.checkout == Some(c)) }

  /** A webhook changes the plan of an existing subscription only to the plan of a checkout its own workspace
      raised under the event's provider id, and only upwards from a row that was not canceled as it was read. */
  lemma EventsOnlyUpgrade(db: Db, op: Op, i: nat)
    requires (op.ProcessOp? || op.UnlockedOp?) && i < |db.subs|
    ensures i < |Step(db, op).subs|
    ensures var s, s' := ReadBy(db, op, i), Step(db, op).subs[i];
            s'.plan != db.subs[i].plan ==>
              && op.event < |db.events| && !s.status.Canceled? && HigherTier(s'.plan, s.plan)
              && s.tenant == db.subs[i].tenant
              && (s'.ext == db.events[op.event].notice.ext
                    || (op.UnlockedOp? && s.ext == db.events[op.event].notice.ext))
              && exists c :: Knows(db, op, c) && c.plan == s'.plan && c.ext == db.events[op.event].notice.ext
                             && (c.tenant == s.tenant || (op.UnlockedOp? && s.ext == c.ext))
  {
    if op.UnlockedOp? {
      BlindStep(db, op, i);
      if WritesBlindly(db, op, i) && op.checkout.Some? {
        ClassifyExactly(op.read.plan, op.checkout.value.plan);
        assert Knows(db, op, op.checkout.value);
      }
      hide Step; hide IdFree; hide Classify; hide HigherTier; hide DefaultPeriod;
    } else if op.event < |db.events| {
      ApplyUpgrades(db, db.events[op.event], op.now, i);
      hide Apply; hide HigherTier;
      var s' := Step(db, op).subs[i];
      if s'.plan != db.subs[i].plan {
        var k :| 0 <= k < |db.checkouts| && db.checkouts[k].tenant == db.subs[i].tenant
                 && db.checkouts[k].plan == s'.plan && db.checkouts[k].ext == db.events[op.event].notice.ext;
        assert Knows(db, op, db.checkouts[k]);
      }
    }
  }

  lemma ApplyUpgrades(db: Db, e: Event, now: int, i: nat)
    requires i < |db.subs|
    ensures i < |Apply(db, e, now).0|
    ensures var s, s' := db.subs[i], Apply(db, e, now).0[i];
            s'.plan != s.plan ==>
              && !s.status.Canceled? && HigherTier(s'.plan, s.plan) && s'.ext == e.notice.ext
              && exists k :: 0 <= k < |db.checkouts| && db.checkouts[k].tenant == s.tenant
                             && db.checkouts[k].plan == s'.plan && db.checkouts[k].ext == e.notice.ext
  {
    ApplyMoves(db, e, now);
    HandleUpgrades(db, e, now, i);
    hide Handle; hide SubFor; hide HigherTier;
  }

  lemma HandleUpgrades(db: Db, e: Event, now: int, i: nat)
    requires i < |db.subs|
    ensures i < |Handle(db, e, now).0|
    ensures var s, s' := db.subs[i], Handle(db, e, now).0[i];
            s'.plan != s.plan ==>
              && !s.status.Canceled? && HigherTier(s'.plan, s.plan) && s'.ext == e.notice.ext
              && exists k :: 0 <= k < |db.checkouts| && db.checkouts[k].tenant == s.tenant
                             && db.checkouts[k].plan == s'.plan && db.checkouts[k].ext == e.notice.ext
  {
    var before := SubFor(db.subs, e.notice.ext);
    if e.notice.kind.Activated? && before.None? && e.notice.ext.Some? {
      var k := Find(db.checkouts, ForExt(e.notice.ext.value));
      if k.Some? {
        var c := db.checkouts[k.value];
        assert ForExt(e.notice.ext.value)(c);
        NoSubOf(db.subs, c.tenant);
        var j := Find(db.subs, OfTenant(c.tenant));
        if j.Some? { ClassifyExactly(db.subs[j.value].plan, c.plan); }
      }
    }
    hide Find; hide SubFor; hide Classify; hide HigherTier;
  }

  // ---------- checkouts ----------

  /** A checkout already raised with the provider is replaced exactly when another plan is asked for, it was
      never confirmed, it is an hour old, the provider calls it abandoned and answers with a new id. */
  lemma CheckoutReplacedExactly(db: Db, k: nat, plan: Plan, answer: Option<string>, abandoned: bool, now: int)
    requires Unique(db) && k < |db.checkouts| && db.checkouts[k].ext.Some?
    ensures var c := db.checkouts[k];
            var db' := CreateCheckout(db, c.tenant, plan, answer, abandoned, now);
            && |db'.checkouts| == |db.checkouts|
            && (db' != db
                <==> c.plan.id != plan.id && !c.confirmed && now - c.updatedAt >= 3600000000 && abandoned
                     && answer.Some? && forall j :: 0 <= j < |db.checkouts| ==> db.checkouts[j].ext != answer)
            && (db' != db ==> db' == db.(checkouts := db.checkouts[k := Checkout(c.tenant, plan, answer, false, now)]))
  {
    var c, mine := db.checkouts[k], Find(db.checkouts, OwnedBy(db.checkouts[k].tenant));
    assert OwnedBy(c.tenant)(db.checkouts[k]);
    assert OwnedBy(c.tenant)(db.checkouts[mine.value]);
    assert mine == Some(k);
    if answer.Some? {
      var clash := Find(db.checkouts, ForExt(answer.value));
      if clash.Some? { assert ForExt(answer.value)(db.checkouts[clash.value]); }
      if clash.None? { assert forall j :: 0 <= j < |db.checkouts| ==> !ForExt(answer.value)(db.checkouts[j]); }
    }
    hide Find;
  }
}
