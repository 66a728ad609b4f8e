/** The retry sweep: what two runs of `process_pending` leave behind. */
module SubscriptionSweeps {
  import opened Tables
  import opened Subscriptions

  predicate Retryable(n: Notice) { n.kind.Charged? && n.ext.Some? }

  /** A charge nobody can place yet: its subscription does not exist and it is less than a day old. */
  predicate Stuck(db: Db, i: nat, now: int)
    requires i < |db.events|
  {
    var e := db.events[i];
    Retryable(e.notice) && SubFor(db.subs, e.notice.ext).None? && now - e.receivedAt <= RETRY_WINDOW
  }

  ghost predicate Covers(order: seq<nat>, events: seq<Event>) {
    forall i :: 0 <= i < |events| && !events[i].processed ==> i in order
  }

  /** Deliveries stay as recorded; processing is final. */
  ghost predicate EventsMove(events: seq<Event>, events': seq<Event>) {
    && |events'| == |events|
    && forall i :: 0 <= i < |events| ==> events'[i] == events[i] || events'[i] == events[i].(processed := true)
  }

  lemma ProcessMoves(db: Db, i: nat, now: int)
    ensures EventsMove(db.events, ProcessEvent(db, i, now).0.events)
    ensures i < |db.events| && !Retryable(db.events[i].notice) ==> ProcessEvent(db, i, now).0.events[i].processed
    ensures i < |db.events| && !ProcessEvent(db, i, now).0.events[i].processed ==>
              ProcessEvent(db, i, now).0 == db && Stuck(db, i, now)
  {
    hide Find; hide Classify;
  }

  lemma {:induction false} SweepMoves(db: Db, order: seq<nat>, now: int)
    ensures EventsMove(db.events, Run(db, Sweep(order, now)).events)
  {
    if order != [] {
      var n := |order| - 1;
      assert Sweep(order, now)[..n] == Sweep(order[..n], now);
      hide ProcessEvent;
      SweepMoves(db, order[..n], now);
      ProcessMoves(Run(db, Sweep(order[..n], now)), order[n], now);
    }
  }

  lemma SweepSplits(db: Db, order: seq<nat>, now: int)
    requires order != []
    ensures var n := |order| - 1;
            Run(db, Sweep(order, now)) == ProcessEvent(Run(db, Sweep(order[..n], now)), order[n], now).0
  {
    var n := |order| - 1;
    assert Sweep(order, now)[..n] == Sweep(order[..n], now);
    hide ProcessEvent;
  }

  lemma SweepNone(db: Db, now: int)
    ensures Run(db, Sweep([], now)) == db
  {
  }

  /** One sweep settles every event that is not a retryable charge. */
  lemma {:induction false} SweepSettlesRest(db: Db, order: seq<nat>, now: int, i: nat)
    requires i < |db.events| && i in order && !Retryable(db.events[i].notice)
    ensures |Run(db, Sweep(order, now)).events| == |db.events| && Run(db, Sweep(order, now)).events[i].processed
  {
    var n := |order| - 1;
    SweepSplits(db, order, now);
    var db' := Run(db, Sweep(order[..n], now));
    SweepMoves(db, order[..n], now);
    ProcessMoves(db', order[n], now);
    hide ProcessEvent; hide Run;
    if order[n] != i { SweepSettlesRest(db, order[..n], now, i); }
  }

  /** Charges never create a subscription nor change a provider id. */
  ghost predicate SameIds(subs: seq<Sub>, subs': seq<Sub>) {
    |subs'| == |subs| && forall k :: 0 <= k < |subs| ==> subs'[k].ext == subs[k].ext
  }

  lemma {:induction false} SameIdsSameMatch(subs: seq<Sub>, subs': seq<Sub>, ext: Option<string>)
    requires SameIds(subs, subs')
    ensures SubFor(subs', ext) == SubFor(subs, ext)
  {
    if ext.Some? { SameFind(subs, subs', ext.value); }
  }

  lemma {:induction false} SameFind(subs: seq<Sub>, subs': seq<Sub>, x: string)
    requires SameIds(subs, subs')
    ensures Find(subs', HasExt(x)) == Find(subs, HasExt(x))
  {
    if subs != [] { SameFind(subs[..|subs| - 1], subs'[..|subs| - 1], x); }
  }

  lemma ChargeKeepsIds(db: Db, i: nat, now: int)
    requires i < |db.events| ==> db.events[i].processed || db.events[i].notice.kind.Charged?
    ensures SameIds(db.subs, ProcessEvent(db, i, now).0.subs)
  {
    hide Find;
  }

  ghost predicate OnlyRetryable(events: seq<Event>) {
    forall i :: 0 <= i < |events| ==> events[i].processed || Retryable(events[i].notice)
  }

  lemma {:induction false} SecondSweepKeepsIds(db: Db, order: seq<nat>, now: int)
    requires OnlyRetryable(db.events)
    ensures SameIds(db.subs, Run(db, Sweep(order, now)).subs)
  {
    if order != [] {
      var n := |order| - 1;
      var db' := Run(db, Sweep(order[..n], now));
      SweepSplits(db, order, now);
      SweepMoves(db, order[..n], now);
      SecondSweepKeepsIds(db, order[..n], now);
      hide ProcessEvent; hide Run;
      ChargeKeepsIds(db', order[n], now);
    }
  }

  /** Once only retryable charges are left, a sweep settles each of them unless it is stuck. */
  lemma {:induction false} SecondSweepSettles(db: Db, order: seq<nat>, now: int, i: nat)
    requires OnlyRetryable(db.events) && i < |db.events| && i in order
    ensures |Run(db, Sweep(order, now)).events| == |db.events|
    ensures Run(db, Sweep(order, now)).events[i].processed || Stuck(Run(db, Sweep(order, now)), i, now)
  {
    var n := |order| - 1;
    var db', db'' := Run(db, Sweep(order[..n], now)), Run(db, Sweep(order, now));
    SweepSplits(db, order, now);
    SweepMoves(db, order[..n], now);
    SecondSweepKeepsIds(db, order[..n], now);
    ProcessMoves(db', order[n], now);
    ChargeKeepsIds(db', order[n], now);
    hide ProcessEvent; hide Run; hide SubFor;
    if order[n] != i {
      SecondSweepSettles(db, order[..n], now, i);
      SameIdsSameMatch(db'.subs, db''.subs, db.events[i].notice.ext);
    }
  }

  ghost predicate AllStuck(db: Db, now: int) {
    forall i :: 0 <= i < |db.events| && !db.events[i].processed ==> Stuck(db, i, now)
  }

  lemma StuckStays(db: Db, i: nat, now: int)
    requires AllStuck(db, now)
    ensures ProcessEvent(db, i, now).0 == db
  {
  }

  lemma {:induction false} SweepOfStuckIsIdle(db: Db, order: seq<nat>, now: int)
    requires AllStuck(db, now)
    ensures Run(db, Sweep(order, now)) == db
  {
    if order != [] {
      SweepSplits(db, order, now);
      SweepOfStuckIsIdle(db, order[..|order| - 1], now);
      hide ProcessEvent; hide Run; hide AllStuck;
      StuckStays(db, order[|order| - 1], now);
    }
  }

  /** What one sweep of everything pending leaves: retryable charges, and only stuck ones if it began with
      nothing else pending. */
  lemma SweepLeaves(db: Db, order: seq<nat>, now: int)
    requires Covers(order, db.events)
    ensures var db' := Run(db, Sweep(order, now));
            |db'.events| == |db.events| && OnlyRetryable(db'.events)
                && (OnlyRetryable(db.events) ==> AllStuck(db', now))
  {
    var db' := Run(db, Sweep(order, now));
    hide Run; hide Stuck;
    SweepMoves(db, order, now);
    forall i | 0 <= i < |db'.events| ensures db'.events[i].processed || Retryable(db'.events[i].notice) {
      if !db.events[i].processed && !Retryable(db.events[i].notice) { SweepSettlesRest(db, order, now, i); }
    }
    if OnlyRetryable(db.events) {
      forall i | 0 <= i < |db'.events| && !db'.events[i].processed ensures Stuck(db', i, now) {
        SecondSweepSettles(db, order, now, i);
      }
    }
  }

  /** Sweep fixpoint: whatever was recorded, after two sweeps of everything pending, each in any order, only
      charges are pending that have a provider id no subscription has and are at most a day old; and a third
      sweep at the same clock changes nothing at all. */
  lemma TwoSweepsSettle(db: Db, order1: seq<nat>, now1: int, order2: seq<nat>, now2: int, order3: seq<nat>)
    requires Covers(order1, db.events) && Covers(order2, Run(db, Sweep(order1, now1)).events)
    ensures var db2 := Run(Run(db, Sweep(order1, now1)), Sweep(order2, now2));
            AllStuck(db2, now2) && Run(db2, Sweep(order3, now2)) == db2
  {
    var db1 := Run(db, Sweep(order1, now1));
    var db2 := Run(db1, Sweep(order2, now2));
    hide Run; hide Stuck;
    SweepLeaves(db, order1, now1);
    SweepLeaves(db1, order2, now2);
    SweepOfStuckIsIdle(db2, order3, now2);
  }
}
