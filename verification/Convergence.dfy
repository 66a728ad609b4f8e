/** Webhook convergence: where the subscription of one checkout ends when all its events have been delivered,
    in whatever order, repetition and interleaving, and two retry sweeps have run. */
module Convergence {
  import opened Tables
  import opened Subscriptions
  import opened SubscriptionSafety
  import opened SubscriptionSweeps
  import opened StoryRow

  // ---------- which charge is in force ----------

  /** Charge j can take effect on a row created at this clock: its period is not over before the first one
      begins, and it is not older than a mark the row inherits. */
  predicate Effective(s: Story, clock: int, j: nat)
    requires j < |s.charges|
  {
    s.End(j) > FirstRow(s, clock).start && !IsStale(s.charges[j], FirstRow(s, clock).mark)
  }

  /** The latest of the first n charges that can. */
  function LastEffective(s: Story, clock: int, n: nat): (cur: Option<nat>)
    requires n <= |s.charges|
    ensures cur.Some? ==> cur.value < n && Effective(s, clock, cur.value)
    ensures forall j :: 0 <= j < n && Effective(s, clock, j) ==> cur.Some? && j <= cur.value
  {
    if n == 0 then None else if Effective(s, clock, n - 1) then Some((n - 1) as nat) else LastEffective(s, clock, n - 1)
  }

  function RowOf(s: Story, clock: int, cur: Option<nat>, mark: Option<int>): Sub
    requires cur.Some? ==> cur.value < |s.charges|
  {
    var first := FirstRow(s, clock);
    if cur.None? then first.(mark := mark)
    else first.(mark := mark, start := s.Start(cur.value), end := s.End(cur.value))
  }

  /** The mark is the first row's or some effective charge's up to the current one, and the current one's if it
      has any. */
  ghost predicate MarkOk(s: Story, clock: int, cur: Option<nat>, mark: Option<int>)
    requires cur.Some? ==> cur.value < |s.charges|
  {
    var first := FirstRow(s, clock).mark;
    && (first.Some? ==> mark.Some? && first.value <= mark.value)
    && match cur
       case None => mark == first
       case Some(c) =>
         && (s.Stamp(c).Some? ==> mark == s.Stamp(c))
         && (mark != first ==> mark.Some? && exists k :: 0 <= k <= c && s.Stamp(k) == mark && Effective(s, clock, k))
  }

  /** Whatever effective charge has been processed is not ahead of the current one. */
  ghost predicate Behind(events: seq<Event>, s: Story, clock: int, cur: Option<nat>) {
    forall i, j :: 0 <= i < |events| && 0 <= j < |s.charges| && events[i].notice == s.charges[j] ==>
      events[i].processed && Effective(s, clock, j) ==> cur.Some? && j <= cur.value
  }

  function Later(cur: Option<nat>, j: nat): Option<nat> { if cur.Some? && cur.value >= j then cur else Some(j) }

  /** A charge moves the row forward to its own period, or is behind or ineffective and changes nothing. */
  lemma ChargeApplies(s: Story, clock: int, cur: Option<nat>, sub: Sub, j: nat, now: int)
    requires WellFormed(s) && j < |s.charges|
    requires (cur.Some? ==> cur.value < |s.charges| && Effective(s, clock, cur.value))
    requires sub == RowOf(s, clock, cur, sub.mark) && MarkOk(s, clock, cur, sub.mark)
    ensures var cur' := if Effective(s, clock, j) then Later(cur, j) else cur;
            var row' := Turn(s, Some(sub), s.charges[j], now);
            && row'.Some? && row'.value == RowOf(s, clock, cur', row'.value.mark)
            && MarkOk(s, clock, cur', row'.value.mark)
  {
    var n, first := s.charges[j], FirstRow(s, clock);
    assert n in s.charges;
    hide DefaultPeriod; hide Classify;
    if IsStale(n, sub.mark) {
      StaleIsBehind(s, clock, cur, sub.mark, j);
    } else if s.End(j) <= sub.start {
      assert if cur.Some? then j < cur.value else !Effective(s, clock, j);
    } else {
      assert Effective(s, clock, j) && (cur.Some? ==> cur.value <= j);
      hide WellFormed;
      assert s.Stamp(j).Some? ==> Stamped(sub, n).mark == s.Stamp(j);
    }
  }

  lemma StaleIsBehind(s: Story, clock: int, cur: Option<nat>, mark: Option<int>, j: nat)
    requires WellFormed(s) && j < |s.charges| && (cur.Some? ==> cur.value < |s.charges|)
    requires MarkOk(s, clock, cur, mark) && IsStale(s.charges[j], mark)
    ensures !Effective(s, clock, j) || (cur.Some? && j < cur.value)
  {
    if mark != FirstRow(s, clock).mark {
      var k :| 0 <= k <= cur.value && s.Stamp(k) == mark && Effective(s, clock, k);
      assert s.Stamp(j).Some? && s.Stamp(j).value < s.Stamp(k).value;
    }
    hide UniqueKeys; hide DefaultPeriod; hide Classify;
  }

  // ---------- failed payments ----------

  ghost function Last(s: Story): nat
    requires s.charges != []
  {
    |s.charges| - 1
  }

  /** The mark the story's row starts with. */
  function OldMark(s: Story): Option<int> { if s.prior.Some? then s.prior.value.mark else None }

  /** Some failed payment is not behind that mark, so it can take effect. */
  ghost predicate Biting(s: Story) { exists n :: n in s.troubles && !IsStale(n, OldMark(s)) }

  /** The last charge is timed, every failed payment is timed strictly before it, and no activation that could
      bring the row back after one is timed behind it. */
  ghost predicate Calm(s: Story) {
    && s.charges != [] && s.Stamp(Last(s)).Some?
    && (forall n :: n in s.troubles ==> n.createdAt.Some? && n.createdAt.value < s.Stamp(Last(s)).value)
    && (!Biting(s) || |s.acts| <= 1
        || forall n :: n in s.acts ==> n.createdAt.None? || n.createdAt.value <= s.Stamp(Last(s)).value)
  }

  /** The row the last charge makes, with its timestamp if it has one. */
  ghost function Target(s: Story): Sub
    requires s.charges != []
  {
    RowOf(s, 0, Some(Last(s)), if s.Stamp(Last(s)).Some? then s.Stamp(Last(s)) else OldMark(s))
  }

  /** Nothing has happened yet that could keep the last charge from taking effect. */
  ghost predicate Nearing(s: Story, sub: Sub) {
    && s.charges != [] && s.Stamp(Last(s)).Some?
    && sub == Target(s).(status := sub.status, mark := sub.mark, start := sub.start, end := sub.end)
    && (sub.status.Active? || (sub.status.PastDue? && Biting(s))) && sub.start < s.End(Last(s))
    && (sub.mark.Some? ==> sub.mark.value <= s.Stamp(Last(s)).value)
    && (OldMark(s).Some? ==> sub.mark.Some? && sub.mark.value >= OldMark(s).value)
  }

  lemma TurnNears(s: Story, sub: Sub, n: Notice, now: int)
    requires WellFormed(s) && Calm(s) && Tells(s, n) && (Nearing(s, sub) || sub == Target(s))
    requires n in s.acts ==> sub.status.Active? || n.createdAt.None? || n.createdAt.value <= s.Stamp(Last(s)).value
    ensures var row' := Turn(s, Some(sub), n, now);
            && row'.Some?
            && (sub == Target(s) || n == s.charges[Last(s)] ==> row'.value == Target(s))
            && (Nearing(s, sub) ==> Nearing(s, row'.value) || row'.value == Target(s))
  {
    KnownKind(s, n);
    var last := Last(s);
    if n in s.charges {
      var j :| 0 <= j < |s.charges| && s.charges[j] == n;
      assert j == last || (s.Start(j) < s.End(j) <= s.Start(last) < s.End(last));
      assert j < last && s.Stamp(j).Some? ==> s.Stamp(j).value <= s.Stamp(last).value;
    }
    hide UniqueKeys; hide DefaultPeriod; hide Classify; hide FirstRow; hide Tells;
  }

  // ---------- phases of a story ----------

  /** Not activated; activated with charge `cur` in force; or, for a calm story, with the last charge still to
      come, or in force for good. */
  datatype Phase = Waiting | Running(clock: int, cur: Option<nat>) | Ahead(clock: int) | Reached(clock: int)

  ghost predicate NotBegun(events: seq<Event>, s: Story) {
    forall i :: 0 <= i < |events| && (events[i].notice in s.acts || events[i].notice in s.charges) ==>
        !events[i].processed
  }

  ghost predicate LastPending(events: seq<Event>, s: Story)
    requires s.charges != []
  {
    forall i :: 0 <= i < |events| && events[i].notice == s.charges[Last(s)] ==> !events[i].processed
  }

  /** A single activation has been stored and processed. */
  ghost predicate ActDone(events: seq<Event>, s: Story) {
    |s.acts| == 1 ==>
      && (exists i :: 0 <= i < |events| && events[i].notice.key == s.acts[0].key)
      && forall i :: 0 <= i < |events| && events[i].notice == s.acts[0] ==> events[i].processed
  }

  ghost predicate At(s: Story, events: seq<Event>, row: Option<Sub>, phase: Phase) {
    match phase
    case Waiting => row.None? && NotBegun(events, s)
    case Running(clock, cur) =>
      && row.Some? && (cur.Some? ==> cur.value < |s.charges| && Effective(s, clock, cur.value))
      && row.value == RowOf(s, clock, cur, row.value.mark) && MarkOk(s, clock, cur, row.value.mark)
      && Behind(events, s, clock, cur)
    case Ahead(_) =>
      row.Some? && Nearing(s, row.value) && LastPending(events, s) && ActDone(events, s)
    case Reached(_) => s.charges != [] && row == Some(Target(s)) && ActDone(events, s)
  }

  /** Running phases for stories where no failed payment can take effect, the other two for calm ones. */
  ghost predicate Fits(s: Story, plain: bool, phase: Phase) {
    if plain then !Biting(s) && (phase.Waiting? || phase.Running?)
    else Calm(s) && !phase.Running?
  }

  lemma StoryNotice(s: Story, n: Notice)
    requires WellFormed(s) && (n in s.acts || n in s.charges)
    ensures n.ext == Some(s.ext)
  {
    hide UniqueKeys;
  }

  /** Storing a delivery, or processing somebody else's, leaves the phase. */
  lemma PhaseKept(db: Db, s: Story, row: Option<Sub>, phase: Phase, op: Op, events': seq<Event>)
    requires WellFormed(s) && At(s, db.events, row, phase) && EventsAfter(db, s, row, op, events')
    requires !Touches(db, s, op)
    ensures At(s, events', row, phase)
  {
    forall i | 0 <= i < |events'| && (events'[i].notice in s.acts || events'[i].notice in s.charges)
      ensures if i < |db.events| then events'[i] == db.events[i] else !events'[i].processed
    {
      StoryNotice(s, events'[i].notice);
    }
    if op.RecordOp? && |s.acts| == 1 && !phase.Waiting? && !phase.Running? {
      var i :| 0 <= i < |db.events| && db.events[i].notice.key == s.acts[0].key;
      assert events'[i].notice.key == s.acts[0].key;
    }
    if !op.RecordOp? && |s.acts| == 1 && !phase.Waiting? && !phase.Running? {
      var i :| 0 <= i < |db.events| && db.events[i].notice.key == s.acts[0].key;
      assert events'[i].notice.key == s.acts[0].key;
    }
    assert forall j :: 0 <= j < |s.charges| ==> s.charges[j] in s.charges;
    hide WellFormed; hide RowOf; hide MarkOk; hide Nearing; hide Target; hide Effective; hide Touches;
  }

  // ---------- an event of the story ----------

  lemma ActNotCharge(s: Story, n: Notice)
    requires WellFormed(s) && n in s.acts
    ensures n !in s.charges && n !in s.troubles
  {
    KnownKind(s, n);
    hide UniqueKeys;
  }

  /** The event that activates the story. */
  lemma Activated(db: Db, s: Story, plain: bool, op: Op, events': seq<Event>) returns (phase': Phase)
    requires WellFormed(s) && Fits(s, plain, Waiting) && At(s, db.events, None, Waiting) && EventsUnique(db.events)
    requires Touches(db, s, op) && EventsAfter(db, s, None, op, events') && db.events[op.event].notice in s.acts
    requires !plain ==> Effective(s, op.now, Last(s))
    ensures At(s, events', Some(FirstRow(s, op.now)), phase') && Fits(s, plain, phase') && !phase'.Waiting?
    ensures phase'.clock == op.now
  {
    var i := op.event;
    ActNotCharge(s, db.events[i].notice);
    assert forall j :: 0 <= j < |db.events| && j != i ==> events'[j] == db.events[j];
    assert forall j :: 0 <= j < |s.charges| ==> s.charges[j] in s.charges;
    if plain {
      phase' := Running(op.now, None);
      hide WellFormed; hide Effective;
    } else {
      phase' := Ahead(op.now);
      FirstNears(s, op.now);
      assert |s.acts| == 1 ==> db.events[i].notice == s.acts[0];
      assert events'[i].notice == db.events[i].notice && events'[i].processed;
      hide WellFormed; hide Nearing; hide Target; hide Calm;
    }
  }

  lemma FirstNears(s: Story, clock: int)
    requires WellFormed(s) && Calm(s) && Effective(s, clock, Last(s))
    ensures Nearing(s, FirstRow(s, clock))
  {
    assert s.charges[Last(s)] in s.charges;
    hide UniqueKeys; hide Classify;
  }

  /** Before the activation charges wait and failed payments are dropped. */
  lemma StillWaiting(db: Db, s: Story, op: Op, events': seq<Event>)
    requires WellFormed(s) && At(s, db.events, None, Waiting) && Touches(db, s, op)
    requires EventsAfter(db, s, None, op, events')
    requires Tells(s, db.events[op.event].notice) && db.events[op.event].notice !in s.acts
    ensures At(s, events', None, Waiting)
  {
    KnownKind(s, db.events[op.event].notice);
    hide WellFormed;
  }

  lemma RunningTurn(db: Db, s: Story, row: Option<Sub>, phase: Phase, op: Op, events': seq<Event>)
      returns (phase': Phase)
    requires WellFormed(s) && !Biting(s) && phase.Running? && At(s, db.events, row, phase)
    requires Touches(db, s, op) && EventsAfter(db, s, row, op, events') && Tells(s, db.events[op.event].notice)
    ensures At(s, events', RowAfter(db, s, row, op), phase') && phase'.Running? && phase'.clock == phase.clock
  {
    var i, n := op.event, db.events[op.event].notice;
    KnownKind(s, n);
    assert forall j :: 0 <= j < |s.charges| ==> s.charges[j] in s.charges;
    if n in s.acts {
      phase' := phase;
      assert RowAfter(db, s, row, op) == row;
      hide WellFormed; hide MarkOk; hide RowOf; hide Effective;
    } else if n in s.troubles {
      phase' := phase;
      StaleTrouble(s, phase.clock, phase.cur, row.value, n, op.now);
      hide WellFormed; hide MarkOk; hide RowOf; hide Effective; hide Turn; hide Biting;
    } else {
      var j :| 0 <= j < |s.charges| && s.charges[j] == n;
      ChargeApplies(s, phase.clock, phase.cur, row.value, j, op.now);
      phase' := Running(phase.clock, if Effective(s, phase.clock, j) then Later(phase.cur, j) else phase.cur);
      OneMoreBehind(db.events, s, phase.clock, phase.cur, i, j);
      SameNotices(db.events, events', s, phase.clock, phase'.cur, i);
      hide WellFormed; hide MarkOk; hide RowOf; hide Effective; hide Turn; hide Behind;
    }
  }

  lemma StaleTrouble(s: Story, clock: int, cur: Option<nat>, sub: Sub, n: Notice, now: int)
    requires WellFormed(s) && !Biting(s) && n in s.troubles && (cur.Some? ==> cur.value < |s.charges|)
    requires MarkOk(s, clock, cur, sub.mark)
    ensures Turn(s, Some(sub), n, now) == Some(sub) && n !in s.charges
  {
    KnownKind(s, n);
    hide WellFormed; hide DefaultPeriod;
  }

  lemma OneMoreBehind(events: seq<Event>, s: Story, clock: int, cur: Option<nat>, i: nat, j: nat)
    requires WellFormed(s) && Behind(events, s, clock, cur) && i < |events| && j < |s.charges|
    requires events[i].notice == s.charges[j]
    ensures Behind(events[i := events[i].(processed := true)], s, clock, if Effective(s, clock, j) then Later(cur, j)
        else cur)
  {
    forall k | 0 <= k < |s.charges| && s.charges[k] == s.charges[j] ensures k == j {
      assert s.All()[|s.acts| + k] == s.charges[k] && s.All()[|s.acts| + j] == s.charges[j];
    }
    hide WellFormed; hide Effective;
  }

  lemma SameNotices(events: seq<Event>, events': seq<Event>, s: Story, clock: int, cur: Option<nat>, i: nat)
    requires i < |events| && Behind(events[i := events[i].(processed := true)], s, clock, cur)
    requires EventsMove(events, events')
    requires forall j :: 0 <= j < |events| && j != i ==> events'[j] == events[j]
    ensures Behind(events', s, clock, cur)
  {
    var marked := events[i := events[i].(processed := true)];
    forall k | 0 <= k < |events'| ensures events'[k].notice == marked[k].notice
        && (events'[k].processed ==> marked[k].processed) {
      assert k == i || events'[k] == events[k];
    }
    hide Effective;
  }

  lemma CalmTurn(db: Db, s: Story, row: Option<Sub>, phase: Phase, op: Op, events': seq<Event>) returns (phase': Phase)
    requires WellFormed(s) && Calm(s) && (phase.Ahead? || phase.Reached?) && At(s, db.events, row, phase)
    requires Touches(db, s, op) && EventsAfter(db, s, row, op, events') && Tells(s, db.events[op.event].notice)
    ensures At(s, events', RowAfter(db, s, row, op), phase') && (phase'.Ahead? || phase'.Reached?)
    ensures phase'.clock == phase.clock
  {
    var i, n := op.event, db.events[op.event].notice;
    assert !Biting(s) ==> row.value.status.Active?;
    LateActsGone(db.events, s, row.value, i);
    TurnNears(s, row.value, n, op.now);
    ActDoneKept(db.events, events', s);
    phase' := if RowAfter(db, s, row, op) == Some(Target(s)) then Reached(phase.clock) else Ahead(phase.clock);
    hide WellFormed; hide Calm; hide Nearing; hide Target; hide Turn; hide ActDone; hide Tells;
  }

  lemma LateActsGone(events: seq<Event>, s: Story, sub: Sub, i: nat)
    requires Calm(s) && ActDone(events, s) && i < |events| && !events[i].processed
    requires !Biting(s) ==> sub.status.Active?
    ensures var n := events[i].notice;
            n in s.acts ==> sub.status.Active? || n.createdAt.None? || n.createdAt.value <= s.Stamp(Last(s)).value
  {
    if |s.acts| == 1 {
      assert events[i].notice != s.acts[0];
    }
    hide Nearing; hide Target;
  }

  lemma ActDoneKept(events: seq<Event>, events': seq<Event>, s: Story)
    requires ActDone(events, s) && EventsMove(events, events')
    ensures ActDone(events', s)
  {
    if |s.acts| == 1 {
      var i :| 0 <= i < |events| && events[i].notice.key == s.acts[0].key;
      assert events'[i].notice.key == s.acts[0].key;
    }
  }

  lemma NextPhase(db: Db, s: Story, since: int, plain: bool, row: Option<Sub>, phase: Phase, op: Op,
      events': seq<Event>)
    returns (phase': Phase)
    requires WellFormed(s) && Setting(db, s, since) && Fits(s, plain, phase) && At(s, db.events, row, phase)
    requires EventsAfter(db, s, row, op, events')
    requires !plain && row.None? && RowAfter(db, s, row, op).Some? ==> op.ProcessOp? && Effective(s, op.now, Last(s))
    ensures At(s, events', RowAfter(db, s, row, op), phase') && Fits(s, plain, phase')
    ensures !phase'.Waiting? ==>
        if phase.Waiting? then op.ProcessOp? && phase'.clock == op.now else phase'.clock == phase.clock
  {
    if !Touches(db, s, op) {
      PhaseKept(db, s, row, phase, op, events');
      phase' := phase;
      hide At; hide Fits; hide WellFormed; hide EventsAfter; hide Setting;
    } else {
      var n := db.events[op.event].notice;
      assert Held(s, db.events[op.event]);
      KnownKind(s, n);
      hide Setting; hide WellFormed; hide At; hide EventsAfter; hide Tells; hide Calm; hide Effective;
      if phase.Waiting? {
        WaitingHasNoRow(s, db.events, row);
        if n in s.acts {
          phase' := Activated(db, s, plain, op, events');
        } else {
          StillWaiting(db, s, op, events');
          phase' := Waiting;
        }
      } else if plain {
        phase' := RunningTurn(db, s, row, phase, op, events');
      } else {
        phase' := CalmTurn(db, s, row, phase, op, events');
      }
    }
  }

  lemma WaitingHasNoRow(s: Story, events: seq<Event>, row: Option<Sub>)
    requires At(s, events, row, Waiting)
    ensures row.None?
  {
  }

  // ---------- every run ----------

  lemma RowIffBegun(s: Story, events: seq<Event>, row: Option<Sub>, phase: Phase)
    requires At(s, events, row, phase)
    ensures row.None? <==> phase.Waiting?
  {
    hide NotBegun; hide MarkOk; hide RowOf; hide Behind; hide Nearing; hide ActDone; hide LastPending; hide Target;
  }

  /** Every step is allowed in the state it meets. */
  ghost predicate AllAllowed(db: Db, s: Story, since: int, ops: seq<Op>) {
    forall k :: 0 <= k < |ops| ==> Allowed(Run(db, ops[..k]), s, since, ops[k])
  }

  lemma AllButLast(db: Db, s: Story, since: int, ops: seq<Op>)
    requires AllAllowed(db, s, since, ops) && ops != []
    ensures var n := |ops| - 1; AllAllowed(db, s, since, ops[..n]) && Allowed(Run(db, ops[..n]), s, since, ops[n])
  {
    var n := |ops| - 1;
    forall k | 0 <= k < n ensures Allowed(Run(db, ops[..n][..k]), s, since, ops[..n][k]) {
      assert ops[..n][..k] == ops[..k];
    }
    hide Allowed; hide Run;
  }

  /** The phase a run ends in, and the clock of the step that created the row. */
  lemma {:induction false} StoryRun(db: Db, s: Story, since: int, plain: bool, r0: int, ops: seq<Op>)
    returns (r: int, row: Option<Sub>, phase: Phase)
    requires WellFormed(s) && Setting(db, s, since) && Standing(db.subs, s, r0, None) && At(s, db.events, None, Waiting)
    requires Fits(s, plain, Waiting) && AllAllowed(db, s, since, ops)
    requires !plain ==> forall clock :: CreatedAt(db, ops, s.ext, clock) ==> Effective(s, clock, Last(s))
    ensures Setting(Run(db, ops), s, since) && Standing(Run(db, ops).subs, s, r, row)
    ensures At(s, Run(db, ops).events, row, phase) && Fits(s, plain, phase) && (row.None? <==> phase.Waiting?)
    ensures forall clock :: CreatedAt(db, ops, s.ext, clock) <==> !phase.Waiting? && clock == phase.clock
  {
    hide WellFormed; hide Setting; hide Standing; hide At; hide Step; hide Allowed; hide AllAllowed; hide Effective;
    hide Fits;
    if ops == [] {
      r, row, phase := r0, None, Waiting;
    } else {
      var n := |ops| - 1;
      var init, op := ops[..n], ops[n];
      forall clock ensures CreatedAt(db, ops, s.ext, clock)
          <==> CreatedAt(db, init, s.ext, clock) || CreatesAt(db, ops, s.ext, n, clock) {
        CreatedSplits(db, ops, s.ext, clock);
      }
      hide CreatedAt;
      AllButLast(db, s, since, ops);
      var r1, row1, phase1 := StoryRun(db, s, since, plain, r0, init);
      var w := Run(db, init);
      r := StoryStep(w, s, since, r1, row1, op);
      row := RowAfter(w, s, row1, op);
      Matched(w.subs, s, r1, row1);
      assert ops[..n + 1] == ops;
      Matched(Run(db, ops).subs, s, r, row);
      hide SubFor; hide RowAfter; hide EventsAfter;
      RowKept(w, s, row1, op);
      phase := NextPhase(w, s, since, plain, row1, phase1, op, Step(w, op).events);
      RowIffBegun(s, Run(db, ops).events, row, phase);
    }
  }

  lemma RowKept(db: Db, s: Story, row: Option<Sub>, op: Op)
    ensures row.Some? ==> RowAfter(db, s, row, op).Some?
    ensures row.None? && RowAfter(db, s, row, op).Some? ==> op.ProcessOp?
  {
  }

  // ---------- complete histories ----------

  /** Deliveries and processing steps, then two sweeps. */
  datatype History = History(ops: seq<Op>, order1: seq<nat>, now1: int, order2: seq<nat>, now2: int)

  function Moves(h: History): seq<Op> { h.ops + Sweep(h.order1, h.now1) + Sweep(h.order2, h.now2) }

  ghost predicate Delivers(ops: seq<Op>, n: Notice) {
    exists k :: 0 <= k < |ops| && ops[k].RecordOp? && ops[k].notice == n
  }

  /** Within a day an activation, every charge and every failed payment are delivered, in any order, each any
      number of times, processed inline or not, among other subscriptions' activity; each sweep covers what is
      pending. */
  ghost predicate Complete(db: Db, s: Story, since: int, h: History) {
    && AllAllowed(db, s, since, Moves(h))
    && (exists n :: n in s.acts && Delivers(h.ops, n))
    && (forall n :: n in s.charges || n in s.troubles ==> Delivers(h.ops, n))
    && Covers(h.order1, Run(db, h.ops).events) && Covers(h.order2, Run(Run(db, h.ops), Sweep(h.order1, h.now1)).events)
  }

  /** Nothing of the story has happened yet. */
  ghost predicate Fresh(db: Db, s: Story) {
    && EventsUnique(db.events) && CheckoutsUnique(db.checkouts) && Raised(db.checkouts, s.checkout)
    && (exists r :: Standing(db.subs, s, r, None))
    && forall i :: 0 <= i < |db.events| ==>
         && db.events[i].notice.ext != Some(s.ext) && !Keyed(s, db.events[i].notice.key)
         && (db.events[i].processed || !OfPrior(s, db.events[i].notice))
  }

  /** The story's row at the end. */
  ghost function Final(db: Db, s: Story, h: History): Option<Sub> {
    var subs := Run(db, Moves(h)).subs;
    match SubFor(subs, Some(s.ext))
    case None => None
    case Some(i) => Some(subs[i])
  }

  lemma {:induction false} RunConcat(db: Db, a: seq<Op>, b: seq<Op>)
    ensures Run(db, a + b) == Run(Run(db, a), b)
  {
    if b == [] {
      assert a + b == a;
    } else {
      var n := |b| - 1;
      assert (a + b)[..|a + b| - 1] == a + b[..n];
      RunConcat(db, a, b[..n]);
    }
    hide Step;
  }

  lemma {:induction false} Recorded(db: Db, ops: seq<Op>, k: nat)
    requires k < |ops| && ops[k].RecordOp?
    ensures exists i :: 0 <= i < |Run(db, ops).events| && Run(db, ops).events[i].notice.key == ops[k].notice.key
  {
    hide Find; hide Apply;
    var n := |ops| - 1;
    var before := Run(db, ops[..n]);
    if k == n {
      var found := Find(before.events, HasEventKey(ops[k].notice.key));
      if found.Some? {
        assert HasEventKey(ops[k].notice.key)(before.events[found.value]);
        assert Run(db, ops).events[found.value].notice.key == ops[k].notice.key;
      } else {
        assert Run(db, ops).events[|before.events|].notice == ops[k].notice;
      }
    } else {
      Recorded(db, ops[..n], k);
      var i :| 0 <= i < |before.events| && before.events[i].notice.key == ops[k].notice.key;
      EventsGrow(before, ops[n], i);
      assert Run(db, ops).events[i].notice.key == ops[k].notice.key;
    }
  }

  lemma EventsGrow(db: Db, op: Op, i: nat)
    requires i < |db.events|
    ensures i < |Step(db, op).events| && Step(db, op).events[i].notice == db.events[i].notice
  {
    hide Apply; hide Find;
  }

  /** The delivery id tells the story's notices apart. */
  lemma SameKeySame(s: Story, n: Notice, m: Notice)
    requires WellFormed(s) && Tells(s, n) && Tells(s, m) && n.key == m.key
    ensures n == m
  {
    assert n in s.All() && m in s.All();
    var j :| 0 <= j < |s.All()| && s.All()[j] == n;
    var k :| 0 <= k < |s.All()| && s.All()[k] == m;
    assert j == k;
  }

  lemma StoredAs(db: Db, s: Story, since: int, ops: seq<Op>, n: Notice) returns (i: nat)
    requires WellFormed(s) && Setting(Run(db, ops), s, since) && Delivers(ops, n) && Tells(s, n)
    ensures i < |Run(db, ops).events| && Run(db, ops).events[i].notice == n
  {
    hide Run; hide WellFormed; hide CheckoutsUnique; hide EventsUnique; hide OfPrior;
    var k :| 0 <= k < |ops| && ops[k].RecordOp? && ops[k].notice == n;
    Recorded(db, ops, k);
    i :| 0 <= i < |Run(db, ops).events| && Run(db, ops).events[i].notice.key == n.key;
    assert Held(s, Run(db, ops).events[i]);
    assert Keyed(s, n.key) by { assert n in s.All(); }
    hide Keyed; hide Tells;
    SameKeySame(s, n, Run(db, ops).events[i].notice);
  }

  lemma DeliversMore(a: seq<Op>, b: seq<Op>, n: Notice)
    requires Delivers(a, n)
    ensures Delivers(a + b, n)
  {
    var k :| 0 <= k < |a| && a[k].RecordOp? && a[k].notice == n;
    assert (a + b)[k] == a[k];
  }

  lemma HistoryRun(db: Db, h: History)
    ensures Run(db, Moves(h)) == Run(Run(Run(db, h.ops), Sweep(h.order1, h.now1)), Sweep(h.order2, h.now2))
  {
    hide Run; hide Sweep;
    RunConcat(db, h.ops, Sweep(h.order1, h.now1));
    RunConcat(db, h.ops + Sweep(h.order1, h.now1), Sweep(h.order2, h.now2));
  }

  /** Everything that was delivered is stored. */
  lemma DeliveredIsStored(db: Db, s: Story, since: int, h: History, n: Notice) returns (i: nat)
    requires WellFormed(s) && Setting(Run(db, Moves(h)), s, since) && Delivers(h.ops, n) && Tells(s, n)
    ensures i < |Run(db, Moves(h)).events| && Run(db, Moves(h)).events[i].notice == n
  {
    hide Run; hide Sweep; hide WellFormed; hide Setting; hide Delivers; hide Tells;
    DeliversMore(h.ops, Sweep(h.order1, h.now1), n);
    DeliversMore(h.ops + Sweep(h.order1, h.now1), Sweep(h.order2, h.now2), n);
    i := StoredAs(db, s, since, Moves(h), n);
  }

  lemma NotStuck(db: Db, i: nat, now: int)
    requires AllStuck(db, now) && i < |db.events|
    requires SubFor(db.subs, db.events[i].notice.ext).Some? || db.events[i].notice.kind.Activated?
    ensures db.events[i].processed
  {
  }

  lemma FreshIsWaiting(db: Db, s: Story, since: int) returns (r: int)
    requires WellFormed(s) && Fresh(db, s)
    ensures Setting(db, s, since) && Standing(db.subs, s, r, None) && At(s, db.events, None, Waiting)
  {
    hide Keyed; hide CheckoutsUnique; hide EventsUnique; hide OfPrior; hide UniqueKeys;
    r :| Standing(db.subs, s, r, None);
    hide Standing;
  }

  /** It is stored and has been processed. */
  ghost predicate HasSpent(events: seq<Event>, n: Notice) {
    exists i :: 0 <= i < |events| && events[i].notice == n && events[i].processed
  }

  /** After a complete history the row exists and every charge has been processed. */
  lemma Settled(db: Db, s: Story, since: int, plain: bool, h: History) returns (phase: Phase)
    requires WellFormed(s) && Fresh(db, s) && Complete(db, s, since, h) && Fits(s, plain, Waiting)
    requires !plain ==> forall clock :: CreatedAt(db, Moves(h), s.ext, clock) ==> Effective(s, clock, Last(s))
    ensures !phase.Waiting? && Fits(s, plain, phase)
    ensures forall clock :: CreatedAt(db, Moves(h), s.ext, clock) <==> clock == phase.clock
    ensures Final(db, s, h).Some? && At(s, Run(db, Moves(h)).events, Final(db, s, h), phase)
    ensures var events := Run(db, Moves(h)).events;
            forall j :: 0 <= j < |s.charges| ==> HasSpent(events, s.charges[j])
  {
    hide Run; hide Sweep; hide WellFormed; hide Setting; hide At; hide Stuck; hide Fits; hide Covers; hide AllAllowed;
    hide Delivers;
    hide CreatedAt; hide Effective; hide Fresh;
    var r0 := FreshIsWaiting(db, s, since);
    var r, row;
    r, row, phase := StoryRun(db, s, since, plain, r0, Moves(h));
    var w := Run(db, Moves(h));
    HistoryRun(db, h);
    TwoSweepsSettle(Run(db, h.ops), h.order1, h.now1, h.order2, h.now2, []);
    Matched(w.subs, s, r, row);
    hide AllStuck; hide SubFor;
    var a :| a in s.acts && Delivers(h.ops, a);
    var i := DeliveredIsStored(db, s, since, h, a);
    KnownKind(s, a);
    NotStuck(w, i, h.now2);
    assert !phase.Waiting? by {
      if phase.Waiting? { ActsWait(s, w.events, row, i); }
    }
    FinalStands(db, s, h, r, row);
    hide Standing; hide Final; hide WellFormed; hide Tells;
    forall j | 0 <= j < |s.charges| ensures HasSpent(w.events, s.charges[j]) {
      assert s.charges[j] in s.charges;
      TellsCharge(s, j);
      var k := DeliveredIsStored(db, s, since, h, s.charges[j]);
      KnownKind(s, s.charges[j]);
      NotStuck(w, k, h.now2);
    }
  }

  lemma TellsCharge(s: Story, j: nat)
    requires j < |s.charges|
    ensures Tells(s, s.charges[j])
  {
  }

  lemma FinalStands(db: Db, s: Story, h: History, r: int, row: Option<Sub>)
    requires var subs := Run(db, Moves(h)).subs;
             Standing(subs, s, r, row) && row.Some? && SubFor(subs, Some(s.ext)) == Some(r as nat)
    ensures Final(db, s, h) == row
  {
    hide Run; hide SubFor;
  }

  /** Webhook convergence of a story in which no failed payment can take effect, for a new workspace (then none is
      sent) and for an upgrade (then all are behind the inherited mark): the row is created by exactly one step,
      ends ACTIVE on the checkout's plan, and has the period of the latest charge that is effective at that
      step's clock, or the period it began with if no charge is. */
  lemma EventsConverge(db: Db, s: Story, since: int, h: History) returns (clock: int, mark: Option<int>)
    requires WellFormed(s) && !Biting(s) && Fresh(db, s) && Complete(db, s, since, h)
    ensures forall c :: CreatedAt(db, Moves(h), s.ext, c) <==> c == clock
    ensures Final(db, s, h) == Some(RowOf(s, clock, LastEffective(s, clock, |s.charges|), mark))
    ensures MarkOk(s, clock, LastEffective(s, clock, |s.charges|), mark)
  {
    hide Run; hide Moves; hide WellFormed; hide Complete; hide Fresh; hide CreatedAt; hide RowOf; hide MarkOk;
    hide Effective;
    var phase := Settled(db, s, since, true, h);
    var events := Run(db, Moves(h)).events;
    clock := phase.clock;
    mark := Final(db, s, h).value.mark;
    hide Final;
    var last := LastEffective(s, clock, |s.charges|);
    if last.Some? { assert HasSpent(events, s.charges[last.value]); }
    assert last == phase.cur;
  }

  /** For a new workspace: the period is the last charge's if and only if that charge was not over when the row
      was created, and otherwise the default period from that moment. */
  lemma NewRowConverges(db: Db, s: Story, since: int, h: History) returns (clock: int)
    requires WellFormed(s) && !Biting(s) && s.prior.None? && Fresh(db, s) && Complete(db, s, since, h)
    ensures forall c :: CreatedAt(db, Moves(h), s.ext, c) <==> c == clock
    ensures Final(db, s, h).Some?
    ensures var sub, n := Final(db, s, h).value, |s.charges|;
            && sub.tenant == s.checkout.tenant && sub.plan == s.checkout.plan && sub.status.Active?
            && sub.ext == Some(s.ext)
            && (n > 0 ==> ((sub.start, sub.end) == (s.Start(n - 1), s.End(n - 1)) <==> s.End(n - 1) > clock))
            && (n == 0 || s.End(n - 1) <= clock ==>
                  && sub.start == clock && sub.mark.None?
                  && sub.end - sub.start == if sub.plan.annual then 31536000000000 else 2592000000000)
            && (n > 0 && s.End(n - 1) > clock && s.Stamp(n - 1).Some? ==> sub.mark == s.Stamp(n - 1))
  {
    hide WellFormed; hide Complete; hide Fresh; hide CreatedAt; hide Moves; hide Final; hide RowOf; hide MarkOk;
    hide LastEffective; hide Effective; hide DefaultPeriod; hide Biting;
    var mark;
    clock, mark := EventsConverge(db, s, since, h);
    NewRowOf(s, clock, mark);
  }

  lemma NewRowOf(s: Story, clock: int, mark: Option<int>)
    requires WellFormed(s) && s.prior.None? && MarkOk(s, clock, LastEffective(s, clock, |s.charges|), mark)
    ensures var n, sub := |s.charges|, RowOf(s, clock, LastEffective(s, clock, |s.charges|), mark);
            && sub.tenant == s.checkout.tenant && sub.plan == s.checkout.plan && sub.status.Active?
            && sub.ext == Some(s.ext)
            && (n > 0 ==> ((sub.start, sub.end) == (s.Start(n - 1), s.End(n - 1)) <==> s.End(n - 1) > clock))
            && (n == 0 || s.End(n - 1) <= clock ==>
                  && sub.start == clock && sub.mark.None?
                  && sub.end - sub.start == if sub.plan.annual then 31536000000000 else 2592000000000)
            && (n > 0 && s.End(n - 1) > clock && s.Stamp(n - 1).Some? ==> sub.mark == s.Stamp(n - 1))
  {
    LastOrNone(s, clock, |s.charges|);
    hide UniqueKeys; hide LastEffective;
  }

  /** On a row without a mark an earlier charge is effective only if the last one is. */
  lemma LastOrNone(s: Story, clock: int, n: nat)
    requires WellFormed(s) && s.prior.None? && n == |s.charges|
    ensures LastEffective(s, clock, n) == if n > 0 && s.End(n - 1) > clock then Some((n - 1) as nat) else None
  {
    assert n > 0 ==> s.Start(n - 1) < s.End(n - 1) && forall j :: 0 <= j < n - 1 ==> s.End(j) <= s.Start(n - 1);
    hide UniqueKeys; hide Classify; hide Standing; hide DefaultPeriod;
  }

  /** For an upgrade the row goes on from the old one, whenever the activation comes; the last charge is in force
      if and only if it ends after the old period began and is not timed before the inherited mark. */
  lemma UpgradeConverges(db: Db, s: Story, since: int, h: History) returns (cur: Option<nat>, mark: Option<int>)
    requires WellFormed(s) && !Biting(s) && s.prior.Some? && Fresh(db, s) && Complete(db, s, since, h)
    ensures cur.Some? ==> cur.value < |s.charges|
    ensures var n, upgraded := |s.charges|,
        s.prior.value.(plan := s.checkout.plan, ext := Some(s.ext), status := Active, mark := mark);
            && Final(db, s, h) == Some(if cur.None? then upgraded
                                       else upgraded.(start := s.Start(cur.value), end := s.End(cur.value)))
            && (n > 0 ==> (cur == Some((n - 1) as nat) <==>
                  && s.End(n - 1) > s.prior.value.start
                  && (s.prior.value.mark.None? || s.Stamp(n - 1).None?
                        || s.Stamp(n - 1).value >= s.prior.value.mark.value)))
            && (cur.None? ==> mark == s.prior.value.mark)
            && (cur.Some? && s.Stamp(cur.value).Some? ==> mark == s.Stamp(cur.value))
  {
    var clock;
    clock, mark := EventsConverge(db, s, since, h);
    cur := LastEffective(s, clock, |s.charges|);
    hide Complete; hide Fresh; hide CreatedAt; hide Moves; hide Final; hide WellFormed;
  }

  ghost predicate SameButMark(a: Option<Sub>, b: Option<Sub>) {
    a.Some? && b.Some? && a.value == b.value.(mark := a.value.mark)
  }

  /** Order of delivery: two complete histories end in the same row, up to the mark, if and only if this is an
      upgrade, or they created the row at the same clock reading, or the last charge outlasts both readings. The
      mark agrees too if the charge in force is timed or there is none. */
  lemma WebhookOrderIrrelevant(db: Db, s: Story, since: int, h: History, h': History, c: int, c': int)
    requires WellFormed(s) && !Biting(s) && Fresh(db, s) && Complete(db, s, since, h) && Complete(db, s, since, h')
    requires CreatedAt(db, Moves(h), s.ext, c) && CreatedAt(db, Moves(h'), s.ext, c')
    ensures SameButMark(Final(db, s, h), Final(db, s, h'))
            <==> s.prior.Some? || c == c' || (s.charges != [] && s.End(Last(s)) > c && s.End(Last(s)) > c')
    ensures var cur := LastEffective(s, c, |s.charges|);
            SameButMark(Final(db, s, h), Final(db, s, h')) && (cur.None? || s.Stamp(cur.value).Some?) ==>
              Final(db, s, h) == Final(db, s, h')
    ensures s.prior.None? && s.charges != [] && s.Stamp(Last(s)).Some? && s.End(Last(s)) > c && s.End(Last(s)) > c' ==>
              var n := Last(s);
              Final(db, s, h) == Final(db, s, h')
              == Some(Sub(s.checkout.tenant, s.checkout.plan, Active, Some(s.ext), s.Stamp(n), s.Start(n), s.End(n)))
  {
    hide WellFormed; hide Complete; hide Fresh; hide CreatedAt; hide Moves; hide Final; hide RowOf; hide MarkOk;
    hide Effective; hide SameButMark; hide LastEffective;
    var mark := FinalAt(db, s, since, h, c);
    var mark' := FinalAt(db, s, since, h', c');
    RowsAgree(s, c, mark, c', mark');
    RowsAgree(s, c', mark', c, mark);
  }

  lemma FinalAt(db: Db, s: Story, since: int, h: History, c: int) returns (mark: Option<int>)
    requires WellFormed(s) && !Biting(s) && Fresh(db, s) && Complete(db, s, since, h)
    requires CreatedAt(db, Moves(h), s.ext, c)
    ensures Final(db, s, h) == Some(RowOf(s, c, LastEffective(s, c, |s.charges|), mark))
    ensures MarkOk(s, c, LastEffective(s, c, |s.charges|), mark)
  {
    hide WellFormed; hide Complete; hide Fresh; hide CreatedAt; hide Moves; hide Final; hide RowOf; hide MarkOk;
    hide Effective;
    var clock;
    clock, mark := EventsConverge(db, s, since, h);
  }

  lemma RowsAgree(s: Story, c: int, mark: Option<int>, c': int, mark': Option<int>)
    requires WellFormed(s)
    requires MarkOk(s, c, LastEffective(s, c, |s.charges|), mark)
    requires MarkOk(s, c', LastEffective(s, c', |s.charges|), mark')
    ensures var n, cur, cur' := |s.charges|, LastEffective(s, c, |s.charges|), LastEffective(s, c', |s.charges|);
            var row, row' := RowOf(s, c, cur, mark), RowOf(s, c', cur', mark');
            && (SameButMark(Some(row), Some(row')) <==>
                  s.prior.Some? || c == c' || (n > 0 && s.End(n - 1) > c && s.End(n - 1) > c'))
            && (SameButMark(Some(row), Some(row')) && (cur.None? || s.Stamp(cur.value).Some?) ==> row == row')
            && (s.prior.None? && n > 0 && s.End(n - 1) > c && s.Stamp(n - 1).Some? ==>
                  row == Sub(s.checkout.tenant, s.checkout.plan, Active, Some(s.ext), s.Stamp(n - 1),
                             s.Start(n - 1), s.End(n - 1)))
  {
    var n := |s.charges|;
    if s.prior.None? {
      LastOrNone(s, c, n);
      LastOrNone(s, c', n);
      assert n > 0 ==> s.Start(n - 1) < s.End(n - 1);
    } else {
      SameUpgrade(s, c, c', n);
    }
    hide UniqueKeys; hide Classify; hide LastEffective;
  }

  lemma {:induction false} SameUpgrade(s: Story, c: int, c': int, n: nat)
    requires s.prior.Some? && n <= |s.charges|
    ensures LastEffective(s, c, n) == LastEffective(s, c', n)
  {
    if n > 0 { SameUpgrade(s, c, c', n - 1); }
  }

  lemma ActsWait(s: Story, events: seq<Event>, row: Option<Sub>, i: nat)
    requires At(s, events, row, Waiting) && i < |events| && events[i].notice in s.acts
    ensures !events[i].processed
  {
  }
}
