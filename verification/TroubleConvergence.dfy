/** Failed payments: exactly when the subscription still does not depend on the order of the deliveries. */
module TroubleConvergence {
  import opened Tables
  import opened Subscriptions
  import opened SubscriptionSafety
  import opened SubscriptionSweeps
  import opened StoryRow
  import opened Convergence

  // ---------- one charge and one failed payment ----------

  /** A live row meets a charge with a new period and a failed payment, both timed and neither stale: the two
      orders of processing them end in the same row if and only if the failed payment is the older event. */
  lemma TwoOrdersAgreeExactly(db: Db, i: nat, charge: Event, trouble: Event, now: int, now': int)
    requires i < |db.subs| && !db.subs[i].status.Canceled? && charge.notice.ext == trouble.notice.ext
    requires SubFor(db.subs, charge.notice.ext) == Some(i)
    requires charge.notice.kind.Charged? && charge.notice.createdAt.Some? && !IsStale(charge.notice, db.subs[i].mark)
    requires trouble.notice.kind.PaymentTrouble? && trouble.notice.createdAt.Some?
    requires !IsStale(trouble.notice, db.subs[i].mark)
    requires charge.notice.periodStart.Some? && charge.notice.periodEnd.Some?
    requires charge.notice.periodEnd.value > db.subs[i].start
    requires (charge.notice.periodStart.value, charge.notice.periodEnd.value) != (db.subs[i].start, db.subs[i].end)
    ensures Apply(db.(subs := Apply(db, charge, now).0), trouble, now').0
            == Apply(db.(subs := Apply(db, trouble, now').0), charge, now).0
            <==> trouble.notice.createdAt.value < charge.notice.createdAt.value
  {
    var sub, c, u := db.subs[i], charge.notice, trouble.notice;
    var paid, failed := Apply(db, charge, now).0, Apply(db, trouble, now').0;
    PaidRow(db, i, charge, now);
    FailedRow(db, i, trouble, now');
    SameIdsSameMatch(db.subs, paid, c.ext);
    SameIdsSameMatch(db.subs, failed, c.ext);
    FailedRow(db.(subs := paid), i, trouble, now');
    PaidRow(db.(subs := failed), i, charge, now);
    hide SubFor; hide Apply;
    assert paid[i := FailedTurn(paid[i], u)] == db.subs[i := FailedTurn(PaidTurn(sub, c), u)];
    assert failed[i := PaidTurn(failed[i], c)] == db.subs[i := PaidTurn(FailedTurn(sub, u), c)];
    RowsDiffer(db.subs, i, FailedTurn(PaidTurn(sub, c), u), PaidTurn(FailedTurn(sub, u), c));
  }

  lemma RowsDiffer(subs: seq<Sub>, i: nat, a: Sub, b: Sub)
    requires i < |subs|
    ensures subs[i := a] == subs[i := b] <==> a == b
  {
    assert subs[i := a][i] == a && subs[i := b][i] == b;
  }

  function PaidTurn(sub: Sub, n: Notice): Sub
    requires n.periodStart.Some? && n.periodEnd.Some?
  {
    if IsStale(n, sub.mark) || n.periodEnd.value <= sub.start then sub
    else Stamped(sub.(start := n.periodStart.value, end := n.periodEnd.value, status := Active), n)
  }

  function FailedTurn(sub: Sub, n: Notice): Sub {
    if IsStale(n, sub.mark) || !sub.status.Active? then sub else Stamped(sub.(status := PastDue), n)
  }

  lemma PaidRow(db: Db, i: nat, e: Event, now: int)
    requires i < |db.subs| && !db.subs[i].status.Canceled? && SubFor(db.subs, e.notice.ext) == Some(i)
    requires e.notice.kind.Charged? && e.notice.periodStart.Some? && e.notice.periodEnd.Some?
    ensures Apply(db, e, now).0 == db.subs[i := PaidTurn(db.subs[i], e.notice)]
  {
    hide SubFor;
  }

  lemma FailedRow(db: Db, i: nat, e: Event, now: int)
    requires i < |db.subs| && SubFor(db.subs, e.notice.ext) == Some(i) && e.notice.kind.PaymentTrouble?
    ensures Apply(db, e, now).0 == db.subs[i := FailedTurn(db.subs[i], e.notice)]
  {
    hide SubFor;
  }

  // ---------- calm stories ----------

  /** The last charge is not over when the row is created. */
  ghost predicate Settles(db: Db, s: Story, since: int, h: History)
    requires s.charges != []
  {
    Complete(db, s, since, h) && forall c :: CreatedAt(db, Moves(h), s.ext, c) ==> Effective(s, c, Last(s))
  }

  ghost predicate OrderIrrelevant(db: Db, s: Story, since: int)
    requires s.charges != []
  {
    forall h, h' :: Settles(db, s, since, h) && Settles(db, s, since, h') ==> Final(db, s, h) == Final(db, s, h')
  }

  /** Every history of a calm story ends in the row of the last charge, ACTIVE and with its timestamp. */
  lemma CalmConverges(db: Db, s: Story, since: int, h: History)
    requires WellFormed(s) && Fresh(db, s) && Calm(s) && Settles(db, s, since, h)
    ensures Final(db, s, h) == Some(Target(s))
  {
    assert s.charges != [];
    hide Run; hide Moves; hide WellFormed; hide Complete; hide Fresh; hide CreatedAt; hide Target; hide Effective;
    hide Calm;
    hide Nearing; hide ActDone;
    var phase := Settled(db, s, since, false, h);
    assert HasSpent(Run(db, Moves(h)).events, s.charges[Last(s)]);
  }

  // ---------- telling a story in a chosen order ----------

  /** The row after these notices, in this order, all at one clock reading. */
  function Fold(s: Story, row: Option<Sub>, ns: seq<Notice>, now: int): Option<Sub> {
    if ns == [] then row else Turn(s, Fold(s, row, ns[..|ns| - 1], now), ns[|ns| - 1], now)
  }

  lemma {:induction false} FoldConcat(s: Story, row: Option<Sub>, a: seq<Notice>, b: seq<Notice>, now: int)
    ensures Fold(s, row, a + b, now) == Fold(s, Fold(s, row, a, now), b, now)
  {
    if b == [] {
      assert a + b == a;
    } else {
      var n := |b| - 1;
      assert (a + b)[..|a + b| - 1] == a + b[..n];
      FoldConcat(s, row, a, b[..n], now);
    }
    hide Turn;
  }

  /** Each notice is delivered and processed at once; `base` deliveries are stored already. */
  function Play(base: nat, ns: seq<Notice>, now: int): seq<Op> {
    if ns == [] then []
    else Play(base, ns[..|ns| - 1], now) + [RecordOp(ns[|ns| - 1], now), ProcessOp(base + |ns| - 1, now)]
  }

  function Upto(n: nat): (order: seq<nat>)
    ensures |order| == n && forall i :: 0 <= i < n ==> order[i] == i
  {
    seq(n, i requires 0 <= i < n => i)
  }

  function Told(db: Db, ns: seq<Notice>, now: int): History {
    var n := |db.events| + |ns|;
    History(Play(|db.events|, ns, now), Upto(n), now, Upto(n), now)
  }

  ghost predicate Distinct(ns: seq<Notice>) { forall j, k :: 0 <= j < k < |ns| ==> ns[j] != ns[k] }

  /** Notices of the story, none twice, charges after an activation. */
  ghost predicate Tale(s: Story, ns: seq<Notice>) {
    && Distinct(ns) && (forall n :: n in ns ==> Tells(s, n))
    && forall k :: 0 <= k < |ns| && ns[k].kind.Charged? ==> exists j :: 0 <= j < k && ns[j].kind.Activated?
  }

  lemma {:induction false} FoldSome(s: Story, ns: seq<Notice>, j: nat, now: int)
    requires j < |ns| && ns[j].kind.Activated?
    ensures Fold(s, None, ns, now).Some?
  {
    if j < |ns| - 1 {
      assert ns[..|ns| - 1][j] == ns[j];
      FoldSome(s, ns[..|ns| - 1], j, now);
    }
    hide FirstRow; hide Stamped;
  }

  /** All deliveries for the story's id have been processed. */
  ghost predicate AllSpent(events: seq<Event>, s: Story) {
    forall i :: 0 <= i < |events| && events[i].notice.ext == Some(s.ext) ==> events[i].processed
  }

  /** The store after the tale: its notices stored behind what was there, all processed. */
  ghost predicate Holds(db: Db, s: Story, ns: seq<Notice>, w: Db) {
    && |w.events| == |db.events| + |ns| && AllSpent(w.events, s)
    && (forall i :: 0 <= i < |db.events| ==> w.events[i].notice == db.events[i].notice)
    && forall j :: 0 <= j < |ns| ==> w.events[|db.events| + j].notice == ns[j]
  }

  lemma TwoSteps(db: Db, a: Op, b: Op)
    ensures Run(db, [a, b]) == Step(Step(db, a), b)
  {
    assert [a, b][..1] == [a] && [a][..0] == [];
    assert Run(db, [a]) == Step(db, a);
    hide Step;
  }

  /** A notice that is not stored yet gets a row of its own. */
  lemma StoresNext(db: Db, s: Story, ns: seq<Notice>, w: Db, n: Notice, now: int)
    requires WellFormed(s) && Fresh(db, s) && Holds(db, s, ns, w) && Tells(s, n) && n !in ns
    requires forall m :: m in ns ==> Tells(s, m)
    requires EventsAfter(w, s, None, RecordOp(n, now), Step(w, RecordOp(n, now)).events)
    ensures Step(w, RecordOp(n, now)).events == w.events + [Event(n, now, false)]
  {
    hide Step; hide WellFormed; hide Standing; hide CheckoutsUnique; hide EventsUnique; hide OfPrior; hide Tells;
    hide AllSpent;
    forall i | 0 <= i < |w.events| ensures w.events[i].notice.key != n.key {
      if i < |db.events| {
        KeyedBy(s, n);
      } else {
        var m := ns[i - |db.events|];
        if m.key == n.key { SameKeySame(s, m, n); }
      }
    }
    hide Keyed;
  }

  lemma KeyedBy(s: Story, n: Notice)
    requires Tells(s, n)
    ensures Keyed(s, n.key)
  {
    assert n in s.All();
  }

  /** Delivering one more notice and processing it turns the row. */
  lemma TellNext(db: Db, s: Story, ns: seq<Notice>, w: Db, r: int, row: Option<Sub>, n: Notice, now: int)
      returns (r': int)
    requires WellFormed(s) && Fresh(db, s) && Holds(db, s, ns, w) && Tells(s, n) && n !in ns
    requires forall m :: m in ns ==> Tells(s, m)
    requires Setting(w, s, now) && Standing(w.subs, s, r, row) && (n.kind.Charged? ==> row.Some?)
    ensures var w' := Step(Step(w, RecordOp(n, now)), ProcessOp(|w.events|, now));
            Setting(w', s, now) && Standing(w'.subs, s, r', Turn(s, row, n, now)) && Holds(db, s, ns + [n], w')
  {
    hide Step; hide WellFormed; hide Setting; hide Standing; hide Fresh; hide Turn; hide Tells;
    KnownStory(s, n);
    var stored, spent := RecordOp(n, now), ProcessOp(|w.events|, now);
    var w1 := Step(w, stored);
    var r1 := StoryStep(w, s, now, r, row, stored);
    assert EventsAfter(w, s, None, stored, w1.events);
    StoresNext(db, s, ns, w, n, now);
    r' := StoryStep(w1, s, now, r1, row, spent);
    var w2 := Step(w1, spent);
    assert Touches(w1, s, spent) && RowAfter(w1, s, row, spent) == Turn(s, row, n, now);
    assert w2.events[|w.events|].notice == n && w2.events[|w.events|].processed;
    assert forall i :: 0 <= i < |w.events| ==> w2.events[i] == w1.events[i] == w.events[i];
  }

  lemma KnownStory(s: Story, n: Notice)
    requires WellFormed(s) && Tells(s, n)
    ensures n.ext == Some(s.ext) && Belongs(s, n)
  {
    KnownKind(s, n);
    hide WellFormed;
  }

  ghost predicate PlayedTo(db: Db, s: Story, ns: seq<Notice>, now: int, r: int) {
    var w := Run(db, Play(|db.events|, ns, now));
    Setting(w, s, now) && Standing(w.subs, s, r, Fold(s, None, ns, now)) && Holds(db, s, ns, w)
  }

  lemma PlayEnds(base: nat, ns: seq<Notice>, now: int)
    requires ns != []
    ensures var k := |ns| - 1;
            Play(base, ns, now) == Play(base, ns[..k], now) + [RecordOp(ns[k], now), ProcessOp(base + k, now)]
  {
  }

  /** The state after the tale is the one after all but its last notice, told and processed. */
  lemma PlayMore(db: Db, init: seq<Notice>, n: Notice, now: int)
    ensures var base, w := |db.events|, Run(db, Play(|db.events|, init, now));
            Run(db, Play(base, init + [n], now)) == Step(Step(w, RecordOp(n, now)), ProcessOp(base + |init|, now))
  {
    hide Step; hide Run; hide Play;
    var base := |db.events|;
    var stored, spent := RecordOp(n, now), ProcessOp(base + |init|, now);
    PlayEnds(base, init + [n], now);
    assert (init + [n])[..|init|] == init;
    RunConcat(db, Play(base, init, now), [stored, spent]);
    TwoSteps(Run(db, Play(base, init, now)), stored, spent);
  }

  lemma ChargeMeetsRow(s: Story, ns: seq<Notice>, now: int)
    requires Tale(s, ns) && ns != [] && ns[|ns| - 1].kind.Charged?
    ensures Fold(s, None, ns[..|ns| - 1], now).Some?
  {
    var k := |ns| - 1;
    var j :| 0 <= j < k && ns[j].kind.Activated?;
    hide Fold;
    FoldSome(s, ns[..k], j, now);
  }

  lemma PlayedNext(db: Db, s: Story, ns: seq<Notice>, now: int, r: int) returns (r': int)
    requires WellFormed(s) && Fresh(db, s) && Tale(s, ns) && ns != [] && PlayedTo(db, s, ns[..|ns| - 1], now, r)
    ensures PlayedTo(db, s, ns, now, r')
  {
    hide Step; hide WellFormed; hide Setting; hide Standing; hide Turn; hide Tells; hide Fresh; hide Run; hide Play;
    hide AllSpent; hide Distinct;
    var k := |ns| - 1;
    var init, n := ns[..k], ns[k];
    var w := Run(db, Play(|db.events|, init, now));
    InitTale(s, ns);
    if n.kind.Charged? { ChargeMeetsRow(s, ns, now); }
    hide Tale;
    assert init + [n] == ns;
    PlayMore(db, init, n, now);
    assert |w.events| == |db.events| + k;
    hide Holds;
    r' := TellNext(db, s, init, w, r, Fold(s, None, init, now), n, now);
  }

  lemma {:induction false} Played(db: Db, s: Story, ns: seq<Notice>, now: int) returns (r: int)
    requires WellFormed(s) && Fresh(db, s) && Tale(s, ns)
    ensures PlayedTo(db, s, ns, now, r)
  {
    hide Step; hide WellFormed; hide Setting; hide Standing; hide Tells; hide At;
    if ns == [] {
      r := FreshIsWaiting(db, s, now);
    } else {
      hide Fresh; hide PlayedTo;
      InitTale(s, ns);
      r := Played(db, s, ns[..|ns| - 1], now);
      r := PlayedNext(db, s, ns, now, r);
    }
  }

  lemma InitTale(s: Story, ns: seq<Notice>)
    requires Tale(s, ns) && ns != []
    ensures var k := |ns| - 1; Tale(s, ns[..k]) && ns[k] !in ns[..k] && Tells(s, ns[k]) && forall n :: n in ns[..k] ==>
        Tells(s, n)
  {
    var init := ns[..|ns| - 1];
    forall k | 0 <= k < |init| && init[k].kind.Charged? ensures exists j :: 0 <= j < k && init[j].kind.Activated? {
      var j :| 0 <= j < k && ns[j].kind.Activated?;
      assert init[j].kind.Activated?;
    }
    hide Tells;
  }

  /** With every delivery processed, a sweep leaves the row. */
  lemma {:induction false} SweepIdle(db: Db, s: Story, r: int, row: Option<Sub>, order: seq<nat>, now: int)
      returns (r': int)
    requires WellFormed(s) && Setting(db, s, now) && Standing(db.subs, s, r, row) && AllSpent(db.events, s)
    ensures var w := Run(db, Sweep(order, now));
            Setting(w, s, now) && Standing(w.subs, s, r', row) && AllSpent(w.events, s) && |w.events| == |db.events|
  {
    r' := r;
    if order != [] {
      hide WellFormed; hide Setting; hide Standing; hide ProcessEvent; hide Turn;
      var n := |order| - 1;
      r' := SweepIdle(db, s, r, row, order[..n], now);
      SweepSplits(db, order, now);
      var w := Run(db, Sweep(order[..n], now));
      hide Run;
      r' := StoryStep(w, s, now, r', row, ProcessOp(order[n], now));
      assert !Touches(w, s, ProcessOp(order[n], now));
    }
  }

  // ---------- a tale is a complete history ----------

  lemma {:induction false} PlayOps(s: Story, base: nat, ns: seq<Notice>, now: int, k: nat)
    requires k < |Play(base, ns, now)| && (forall n :: n in ns ==> Belongs(s, n))
    ensures var op := Play(base, ns, now)[k];
            (op.RecordOp? || op.ProcessOp?) && op.now == now && (op.RecordOp? ==> Belongs(s, op.notice))
  {
    var init := ns[..|ns| - 1];
    if k < |Play(base, init, now)| { PlayOps(s, base, init, now, k); }
    hide Belongs;
  }

  lemma {:induction false} PlayDelivers(base: nat, ns: seq<Notice>, now: int, n: Notice)
    requires n in ns
    ensures Delivers(Play(base, ns, now), n)
  {
    var k := |ns| - 1;
    var two := [RecordOp(ns[k], now), ProcessOp(base + k, now)];
    if ns[k] == n {
      assert Play(base, ns, now)[|Play(base, ns[..k], now)|] == RecordOp(n, now);
    } else {
      PlayDelivers(base, ns[..k], now, n);
      DeliversMore(Play(base, ns[..k], now), two, n);
    }
  }

  /** The tale tells everything there is to tell. */
  ghost predicate Whole(s: Story, ns: seq<Notice>) {
    && Tale(s, ns) && (exists n :: n in s.acts && n in ns)
    && forall n :: n in s.charges || n in s.troubles ==> n in ns
  }

  lemma ToldMoves(db: Db, s: Story, ns: seq<Notice>, now: int, k: nat)
    requires WellFormed(s) && Tale(s, ns) && k < |Moves(Told(db, ns, now))|
    ensures var op := Moves(Told(db, ns, now))[k];
            (forall w :: Allowed(w, s, now, op)) && (op.ProcessOp? ==> op.now == now)
  {
    var h := Told(db, ns, now);
    forall n | n in ns ensures Belongs(s, n) { KnownStory(s, n); }
    if k < |h.ops| { PlayOps(s, |db.events|, ns, now, k); }
    hide WellFormed; hide Tale; hide Play; hide Belongs;
  }

  lemma ToldEnds(db: Db, s: Story, ns: seq<Notice>, now: int)
    requires WellFormed(s) && Fresh(db, s) && Whole(s, ns)
    ensures Complete(db, s, now, Told(db, ns, now))
    ensures forall c :: CreatedAt(db, Moves(Told(db, ns, now)), s.ext, c) ==> c == now
    ensures Final(db, s, Told(db, ns, now)) == Fold(s, None, ns, now)
  {
    hide WellFormed; hide Fresh; hide Run; hide Setting; hide Standing; hide Turn; hide Tells; hide Sweep;
    hide Allowed; hide Fold;
    hide Distinct; hide Delivers; hide Play;
    var h := Told(db, ns, now);
    var w0 := Run(db, h.ops);
    var w1 := Run(w0, Sweep(h.order1, now));
    var r := Played(db, s, ns, now);
    var row := Fold(s, None, ns, now);
    r := SweepIdle(w0, s, r, row, h.order1, now);
    r := SweepIdle(w1, s, r, row, h.order2, now);
    HistoryRun(db, h);
    forall k | 0 <= k < |Moves(h)|
      ensures Allowed(Run(db, Moves(h)[..k]), s, now, Moves(h)[k])
      ensures Moves(h)[k].ProcessOp? ==> Moves(h)[k].now == now
    {
      ToldMoves(db, s, ns, now, k);
    }
    forall n | n in ns ensures Delivers(h.ops, n) { PlayDelivers(|db.events|, ns, now, n); }
    CoversAll(w0.events);
    CoversAll(w1.events);
    var a :| a in s.acts && a in ns;
    var j :| 0 <= j < |ns| && ns[j] == a;
    ActKind(s, a);
    FoldSome(s, ns, j, now);
    Matched(Run(db, Moves(h)).subs, s, r, row);
    FinalStands(db, s, h, r, row);
    hide Final; hide Moves; hide Covers; hide Told; hide Tale; hide SubFor;
  }

  lemma ActKind(s: Story, n: Notice)
    requires WellFormed(s) && n in s.acts
    ensures n.kind.Activated?
  {
    hide UniqueKeys;
  }

  lemma CoversAll(events: seq<Event>)
    ensures Covers(Upto(|events|), events)
  {
    forall i | 0 <= i < |events| ensures i in Upto(|events|) { assert Upto(|events|)[i] == i; }
  }

  // ---------- the tales that differ ----------

  lemma DistinctConcat(a: seq<Notice>, b: seq<Notice>)
    requires Distinct(a) && Distinct(b) && forall n :: n in b ==> n !in a
    ensures Distinct(a + b)
  {
    forall j, k | 0 <= j < k < |a + b| ensures (a + b)[j] != (a + b)[k] {
      if j < |a| <= k {
        assert a[j] in a && b[k - |a|] in b;
      } else if k < |a| {
        assert a[j] != a[k];
      } else {
        assert b[j - |a|] != b[k - |a|];
      }
    }
  }

  lemma PartsDistinct(s: Story)
    requires WellFormed(s)
    ensures Distinct(s.charges) && Distinct(s.troubles)
  {
    assert UniqueKeys(s.All());
    hide WellFormed;
    PartDistinct(s.acts, s.charges, s.troubles);
    PartDistinct(s.acts + s.charges, s.troubles, []);
    assert s.acts + s.charges + s.troubles + [] == s.All();
  }

  lemma PartDistinct(a: seq<Notice>, b: seq<Notice>, c: seq<Notice>)
    requires UniqueKeys(a + b + c)
    ensures Distinct(b)
  {
    var all, n := a + b + c, |a|;
    forall j, k | 0 <= j < k < |b| ensures b[j] != b[k] {
      assert all[n + j] == b[j] && all[n + k] == b[k];
    }
    hide UniqueKeys;
  }

  /** The last charge and then those before it. */
  function LastFirst(s: Story): seq<Notice>
    requires s.charges != []
  {
    [s.charges[|s.charges| - 1]] + s.charges[..|s.charges| - 1]
  }

  lemma LastFirstHasAll(s: Story)
    requires WellFormed(s) && s.charges != []
    ensures Distinct(LastFirst(s)) && forall n :: n in LastFirst(s) <==> n in s.charges
  {
    var n := |s.charges| - 1;
    PartsDistinct(s);
    forall c | c in s.charges ensures c in LastFirst(s) {
      var j :| 0 <= j < |s.charges| && s.charges[j] == c;
      if j < n { assert LastFirst(s)[1 + j] == c; }
    }
    assert s.charges[n] !in s.charges[..n];
    DistinctConcat([s.charges[n]], s.charges[..n]);
    hide WellFormed;
  }

  /** Failed payments and activations, then the charges in some order, then failed payments. */
  lemma OrderIsTale(s: Story, first: seq<Notice>, charges: seq<Notice>, second: seq<Notice>, j: nat)
    requires WellFormed(s) && j < |first| && first[j] in s.acts
    requires Distinct(charges) && forall n :: n in charges <==> n in s.charges
    requires Distinct(first + second) && forall n :: n in first + second ==> n in s.acts || n in s.troubles
    requires forall n :: n in s.troubles ==> n in first + second
    ensures Whole(s, first + charges + second)
  {
    var ns := first + charges + second;
    ChargesApart(s);
    ActKind(s, first[j]);
    assert forall n :: n in first ==> n in first + second;
    assert forall n :: n in second ==> n in first + second;
    assert ns[j] == first[j];
    forall k | 0 <= k < |ns| && ns[k].kind.Charged? ensures j < k {
      if k < |first| { NotCharged(s, first[k]); }
    }
    DistinctParts(first, second);
    hide WellFormed;
    DistinctConcat(first, charges);
    DistinctConcat(first + charges, second);
  }

  lemma DistinctParts(a: seq<Notice>, b: seq<Notice>)
    requires Distinct(a + b)
    ensures Distinct(a) && Distinct(b) && forall n :: n in b ==> n !in a
  {
    assert forall j :: 0 <= j < |a| ==> (a + b)[j] == a[j];
    assert forall j :: 0 <= j < |b| ==> (a + b)[|a| + j] == b[j];
  }

  lemma NotCharged(s: Story, n: Notice)
    requires WellFormed(s) && (n in s.acts || n in s.troubles)
    ensures !n.kind.Charged? && n !in s.charges
  {
    hide UniqueKeys;
  }

  lemma ChargesApart(s: Story)
    requires WellFormed(s)
    ensures forall n :: n in s.charges ==> n !in s.acts && n !in s.troubles
    ensures forall n :: n in s.troubles ==> n !in s.acts
  {
    hide UniqueKeys;
  }

  // ---------- where they end ----------

  lemma {:induction false} TroublesDropped(s: Story, ns: seq<Notice>, now: int)
    requires WellFormed(s) && forall n :: n in ns ==> n in s.troubles
    ensures Fold(s, None, ns, now) == None
  {
    if ns != [] {
      TroublesDropped(s, ns[..|ns| - 1], now);
      ChargesApart(s);
      KnownKind(s, ns[|ns| - 1]);
    }
    hide WellFormed; hide FirstRow; hide Stamped;
  }

  /** A row in the last period ignores the charges before. */
  lemma {:induction false} EarlierIgnored(s: Story, sub: Sub, m: nat, now: int)
    requires WellFormed(s) && m < |s.charges| && sub.start == s.Start(Last(s))
    ensures Fold(s, Some(sub), s.charges[..m], now) == Some(sub)
  {
    if m > 0 {
      EarlierIgnored(s, sub, m - 1, now);
      assert s.charges[..m][..m - 1] == s.charges[..m - 1];
      assert s.charges[m - 1] in s.charges && s.End(m - 1) <= s.Start(Last(s));
    }
    hide UniqueKeys; hide FirstRow; hide Stamped; hide Classify;
  }

  lemma FoldOne(s: Story, row: Option<Sub>, n: Notice, now: int)
    ensures Fold(s, row, [n], now) == Turn(s, row, n, now)
  {
    assert [n][..0] == [];
    assert Fold(s, row, [], now) == row;
    hide Turn;
  }

  /** The last charge makes the row its own, and the earlier ones leave it. */
  lemma ChargesEnd(s: Story, sub: Sub, now: int)
    requires WellFormed(s) && s.charges != [] && Turn(s, Some(sub), s.charges[Last(s)], now) == Some(Target(s))
    ensures Fold(s, Some(sub), LastFirst(s), now) == Some(Target(s))
  {
    var n := Last(s);
    FoldOne(s, Some(sub), s.charges[n], now);
    FoldConcat(s, Some(sub), [s.charges[n]], s.charges[..n], now);
    EarlierIgnored(s, Target(s), n, now);
    hide Turn; hide Fold; hide WellFormed;
  }

  lemma FirstThenLast(s: Story, now: int)
    requires WellFormed(s) && s.charges != [] && Effective(s, now, Last(s))
    ensures Turn(s, Some(FirstRow(s, now)), s.charges[Last(s)], now) == Some(Target(s))
  {
    assert s.charges[Last(s)] in s.charges;
    hide UniqueKeys; hide Classify; hide DefaultPeriod;
  }

  /** Failed payments are dropped until an activation creates the row. */
  lemma FirstTold(s: Story, us: seq<Notice>, a: Notice, now: int)
    requires WellFormed(s) && a in s.acts && forall n :: n in us ==> n in s.troubles
    ensures Fold(s, None, us + [a], now) == Some(FirstRow(s, now))
  {
    TroublesDropped(s, us, now);
    FoldConcat(s, None, us, [a], now);
    FoldOne(s, None, a, now);
    ActKind(s, a);
    hide WellFormed; hide Fold; hide FirstRow;
  }

  /** Failed payments first, then an activation and the charges: the row of the last charge. */
  lemma PlainEnd(s: Story, us: seq<Notice>, a: Notice, now: int)
    requires WellFormed(s) && s.charges != [] && Effective(s, now, Last(s))
    requires a in s.acts && forall n :: n in us ==> n in s.troubles
    ensures Fold(s, None, us + [a] + LastFirst(s), now) == Some(Target(s))
  {
    hide WellFormed; hide Effective; hide Target; hide LastFirst;
    FirstTold(s, us, a, now);
    FoldConcat(s, None, us + [a], LastFirst(s), now);
    FirstThenLast(s, now);
    ChargesEnd(s, FirstRow(s, now), now);
    hide Fold; hide FirstRow;
  }

  // ---------- marks ----------

  ghost predicate MarkAtLeast(row: Option<Sub>, t: int) {
    row.Some? && row.value.mark.Some? && row.value.mark.value >= t
  }

  lemma {:induction false} MarkStays(s: Story, row: Option<Sub>, ns: seq<Notice>, now: int, t: int)
    requires MarkAtLeast(row, t)
    ensures MarkAtLeast(Fold(s, row, ns, now), t)
  {
    if ns != [] {
      MarkStays(s, row, ns[..|ns| - 1], now, t);
      hide FirstRow;
    }
  }

  /** A failed payment brings the new row down and a late activation brings it back with its own timestamp. */
  lemma LateActStamps(s: Story, u: Notice, a: Notice, now: int)
    requires WellFormed(s) && u in s.troubles && !IsStale(u, OldMark(s)) && u.createdAt.Some?
    requires a in s.acts && a.createdAt.Some? && a.createdAt.value > u.createdAt.value
    ensures MarkAtLeast(Turn(s, Turn(s, Some(FirstRow(s, now)), u, now), a, now), a.createdAt.value)
  {
    KnownKind(s, u);
    ActKind(s, a);
    hide WellFormed; hide DefaultPeriod; hide Tells;
  }

  lemma LateActEnd(s: Story, us: seq<Notice>, a': Notice, u: Notice, a: Notice, now: int)
    requires WellFormed(s) && s.charges != [] && (forall n :: n in us ==> n in s.troubles) && a' in s.acts
    requires u in s.troubles && !IsStale(u, OldMark(s)) && u.createdAt.Some?
    requires a in s.acts && a.createdAt.Some? && a.createdAt.value > u.createdAt.value
    ensures MarkAtLeast(Fold(s, None, us + [a'] + [u] + [a] + LastFirst(s), now), a.createdAt.value)
  {
    hide WellFormed; hide LastFirst;
    FirstTold(s, us, a', now);
    var first := FirstRow(s, now);
    FoldConcat(s, None, us + [a'], [u], now);
    FoldOne(s, Some(first), u, now);
    FoldConcat(s, None, us + [a'] + [u], [a], now);
    FoldOne(s, Turn(s, Some(first), u, now), a, now);
    LateActStamps(s, u, a, now);
    FoldConcat(s, None, us + [a'] + [u] + [a], LastFirst(s), now);
    hide Fold; hide FirstRow;
    MarkStays(s, Fold(s, None, us + [a'] + [u] + [a], now), LastFirst(s), now, a.createdAt.value);
  }

  // ---------- exactly when order is irrelevant ----------

  function Without(ns: seq<Notice>, i: nat): seq<Notice>
    requires i < |ns|
  {
    ns[..i] + ns[i + 1..]
  }

  lemma WithoutOne(s: Story, i: nat)
    requires WellFormed(s) && i < |s.troubles|
    ensures var us := Without(s.troubles, i);
            && Distinct(us) && s.troubles[i] !in us && (forall n :: n in us ==> n in s.troubles)
            && forall n :: n in s.troubles ==> n == s.troubles[i] || n in us
  {
    var us := Without(s.troubles, i);
    PartsDistinct(s);
    forall n | n in s.troubles && n != s.troubles[i] ensures n in us {
      var j :| 0 <= j < |s.troubles| && s.troubles[j] == n;
      assert us[if j < i then j else j - 1] == n;
    }
    hide WellFormed;
  }

  /** A tale that ends in the last charge's row. */
  lemma PlainTale(s: Story, a: Notice, now: int) returns (ns: seq<Notice>)
    requires WellFormed(s) && s.charges != [] && Effective(s, now, Last(s)) && a in s.acts
    ensures Whole(s, ns) && Fold(s, None, ns, now) == Some(Target(s))
  {
    hide WellFormed; hide Effective; hide Target; hide LastFirst; hide Fold; hide Whole;
    var us := s.troubles;
    PartsDistinct(s);
    ChargesApart(s);
    DistinctConcat(us, [a]);
    assert us + [a] + [] == us + [a];
    ns := us + [a] + LastFirst(s);
    LastFirstHasAll(s);
    OrderIsTale(s, us + [a], LastFirst(s), [], |us|);
    assert ns + [] == ns;
    PlainEnd(s, us, a, now);
  }

  /** A failed payment not stale for the last charge's row, told last, leaves it PAST_DUE. */
  lemma LateTroubleTale(s: Story, a: Notice, i: nat, now: int) returns (ns: seq<Notice>)
    requires WellFormed(s) && s.charges != [] && Effective(s, now, Last(s)) && a in s.acts
    requires i < |s.troubles| && !IsStale(s.troubles[i], Target(s).mark)
    ensures Whole(s, ns) && Fold(s, None, ns, now) != Some(Target(s))
  {
    hide WellFormed; hide Effective; hide LastFirst; hide Fold; hide Whole; hide Without;
    var us, u := Without(s.troubles, i), s.troubles[i];
    WithoutOne(s, i);
    ChargesApart(s);
    DistinctConcat(us, [a]);
    DistinctConcat(us + [a], [u]);
    ns := us + [a] + LastFirst(s) + [u];
    LastFirstHasAll(s);
    OrderIsTale(s, us + [a], LastFirst(s), [u], |us|);
    PlainEnd(s, us, a, now);
    FoldConcat(s, None, us + [a] + LastFirst(s), [u], now);
    FoldOne(s, Some(Target(s)), u, now);
    TroubleIsTrouble(s, i);
    hide FirstRow;
  }

  lemma TroubleIsTrouble(s: Story, i: nat)
    requires WellFormed(s) && i < |s.troubles|
    ensures s.troubles[i].kind.PaymentTrouble?
  {
    assert s.troubles[i] in s.troubles;
    hide UniqueKeys;
  }

  /** A failed payment and then a late activation between the first activation and the last charge leave a mark
      beyond that charge. */
  lemma LateActTale(s: Story, a': Notice, i: nat, a: Notice, now: int) returns (ns: seq<Notice>)
    requires WellFormed(s) && s.charges != [] && s.Stamp(Last(s)).Some? && a' in s.acts && a in s.acts && a' != a
    requires i < |s.troubles| && !IsStale(s.troubles[i], OldMark(s)) && s.troubles[i].createdAt.Some?
    requires s.troubles[i].createdAt.value < s.Stamp(Last(s)).value
    requires a.createdAt.Some? && a.createdAt.value > s.Stamp(Last(s)).value
    ensures Whole(s, ns) && Fold(s, None, ns, now) != Some(Target(s))
  {
    hide WellFormed; hide LastFirst; hide Fold; hide Whole; hide Without; hide FirstRow; hide Turn;
    var us, u := Without(s.troubles, i), s.troubles[i];
    WithoutOne(s, i);
    ChargesApart(s);
    DistinctConcat(us, [a']);
    DistinctConcat(us + [a'], [u]);
    DistinctConcat(us + [a'] + [u], [a]);
    var first := us + [a'] + [u] + [a];
    assert first + [] == first;
    ns := first + LastFirst(s);
    assert first[|us|] == a';
    LastFirstHasAll(s);
    OrderIsTale(s, first, LastFirst(s), [], |us|);
    assert ns + [] == ns;
    LateActEnd(s, us, a', u, a, now);
  }

  // ---------- an untimed last charge ----------

  /** No failed payment can take effect, and no earlier charge that can would leave another mark. */
  ghost predicate Unmarked(s: Story, since: int) {
    && s.charges != [] && !Biting(s)
    && forall k :: 0 <= k < Last(s) && Effective(s, since, k) ==> s.Stamp(k).None? || s.Stamp(k) == OldMark(s)
  }

  lemma {:induction false} ChargesInOrder(s: Story, now: int, m: nat)
    requires WellFormed(s) && m <= |s.charges|
    ensures var row, cur := Fold(s, Some(FirstRow(s, now)), s.charges[..m], now), LastEffective(s, now, m);
            row.Some? && row.value == RowOf(s, now, cur, row.value.mark) && MarkOk(s, now, cur, row.value.mark)
  {
    var first := Some(FirstRow(s, now));
    if m == 0 {
      assert Fold(s, first, s.charges[..0], now) == first;
    } else {
      ChargesInOrder(s, now, m - 1);
      assert s.charges[..m] == s.charges[..m - 1] + [s.charges[m - 1]];
      FoldConcat(s, first, s.charges[..m - 1], [s.charges[m - 1]], now);
      var before := Fold(s, first, s.charges[..m - 1], now);
      FoldOne(s, before, s.charges[m - 1], now);
      ChargeApplies(s, now, LastEffective(s, now, m - 1), before.value, m - 1, now);
      hide Fold; hide Turn; hide RowOf; hide MarkOk; hide Effective;
    }
    hide WellFormed; hide FirstRow;
  }

  /** Told in order, an earlier timed charge that is effective leaves at least its own timestamp. */
  lemma MarkedTale(s: Story, a: Notice, k: nat, now: int) returns (ns: seq<Notice>)
    requires WellFormed(s) && a in s.acts && k < |s.charges| && Effective(s, now, k) && s.Stamp(k).Some?
    ensures Whole(s, ns) && MarkAtLeast(Fold(s, None, ns, now), s.Stamp(k).value)
  {
    hide WellFormed; hide Effective; hide Fold; hide Whole; hide Turn;
    var us, charges := s.troubles, s.charges;
    PartsDistinct(s);
    ChargesApart(s);
    DistinctConcat(us, [a]);
    assert us + [a] + [] == us + [a];
    ns := us + [a] + charges;
    OrderIsTale(s, us + [a], charges, [], |us|);
    assert ns + [] == ns;
    FirstTold(s, us, a, now);
    ChargesInOrder(s, now, k + 1);
    FoldConcat(s, None, us + [a], charges[..k + 1], now);
    FoldConcat(s, None, us + [a] + charges[..k + 1], charges[k + 1..], now);
    assert us + [a] + charges[..k + 1] + charges[k + 1..] == ns;
    assert LastEffective(s, now, k + 1) == Some(k);
    hide RowOf; hide FirstRow;
    MarkStays(s, Fold(s, None, us + [a] + charges[..k + 1], now), charges[k + 1..], now, s.Stamp(k).value);
  }

  lemma UnmarkedConverges(db: Db, s: Story, since: int, h: History)
    requires WellFormed(s) && Fresh(db, s) && s.charges != [] && s.Stamp(Last(s)).None? && Unmarked(s, since)
    requires Settles(db, s, since, h)
    ensures Final(db, s, h) == Some(Target(s))
  {
    hide WellFormed; hide Fresh; hide Final; hide Biting; hide Complete; hide CreatedAt; hide Moves; hide Effective;
    hide MarkOk; hide RowOf; hide Target;
    var clock, mark := EventsConverge(db, s, since, h);
    NotBefore(db, s, since, h, clock);
    assert LastEffective(s, clock, |s.charges|) == Some(Last(s));
    hide LastEffective; hide Unmarked;
    UnmarkedMark(s, since, clock, mark);
    SameTarget(s, clock);
  }

  lemma SameTarget(s: Story, clock: int)
    requires s.charges != [] && s.Stamp(Last(s)).None?
    ensures RowOf(s, clock, Some(Last(s)), OldMark(s)) == Target(s)
  {
    hide DefaultPeriod;
  }

  lemma UnmarkedMark(s: Story, since: int, clock: int, mark: Option<int>)
    requires s.charges != [] && s.Stamp(Last(s)).None? && Unmarked(s, since) && since <= clock
    requires MarkOk(s, clock, Some(Last(s)), mark)
    ensures mark == OldMark(s)
  {
    assert forall k :: 0 <= k <= Last(s) && Effective(s, clock, k) ==> Effective(s, since, k);
    hide Effective;
  }

  lemma NotBefore(db: Db, s: Story, since: int, h: History, clock: int)
    requires Complete(db, s, since, h) && CreatedAt(db, Moves(h), s.ext, clock)
    ensures since <= clock
  {
    hide Moves; hide Run; hide SubFor; hide Covers; hide Belongs; hide Delivers;
    var k :| 0 <= k < |Moves(h)| && CreatesAt(db, Moves(h), s.ext, k, clock);
    assert Allowed(Run(db, Moves(h)[..k]), s, since, Moves(h)[k]);
  }

  /** When the order of delivery cannot matter: see OrderIrrelevantExactly. */
  ghost predicate Steady(s: Story, since: int)
    requires s.charges != []
  {
    if s.Stamp(Last(s)).Some? then Calm(s) else Unmarked(s, since)
  }

  /** Failed payments and order: over all complete histories of a story whose last charge is not over when the row
      is created, the final row is one and the same if and only if
      - for a timed last charge, every failed payment is timed strictly before it and either none can take effect,
        or there is only one activation, or no activation is timed after that charge;
      - for an untimed last charge, no failed payment and no earlier charge can take effect with another mark. */
  lemma OrderIrrelevantExactly(db: Db, s: Story, since: int)
    requires WellFormed(s) && Fresh(db, s) && s.acts != [] && s.charges != [] && Effective(s, since, Last(s))
    ensures OrderIrrelevant(db, s, since) <==> Steady(s, since)
  {
    hide WellFormed; hide Fresh; hide Target; hide Final; hide Effective; hide Settles; hide Calm; hide Unmarked;
    if Steady(s, since) {
      forall h, h' | Settles(db, s, since, h) && Settles(db, s, since, h') ensures Final(db, s, h) == Final(db, s, h') {
        SteadyConverges(db, s, since, h);
        SteadyConverges(db, s, since, h');
      }
    } else {
      var plain := PlainTale(s, s.acts[0], since);
      var other := RestlessTale(s, since);
      hide Steady; hide Fold; hide Whole;
      ToldSettles(db, s, plain, since);
      ToldSettles(db, s, other, since);
      assert !OrderIrrelevant(db, s, since);
    }
  }

  lemma SteadyConverges(db: Db, s: Story, since: int, h: History)
    requires WellFormed(s) && Fresh(db, s) && s.charges != [] && Steady(s, since) && Settles(db, s, since, h)
    ensures Final(db, s, h) == Some(Target(s))
  {
    hide WellFormed; hide Fresh; hide Target; hide Final; hide Settles; hide Calm; hide Unmarked;
    if s.Stamp(Last(s)).Some? { CalmConverges(db, s, since, h); } else { UnmarkedConverges(db, s, since, h); }
  }

  lemma ToldSettles(db: Db, s: Story, ns: seq<Notice>, now: int)
    requires WellFormed(s) && Fresh(db, s) && Whole(s, ns) && s.charges != [] && Effective(s, now, Last(s))
    ensures Settles(db, s, now, Told(db, ns, now)) && Final(db, s, Told(db, ns, now)) == Fold(s, None, ns, now)
  {
    hide WellFormed; hide Fresh; hide Whole; hide Complete; hide CreatedAt; hide Final; hide Fold; hide Effective;
    hide Told; hide Moves;
    ToldEnds(db, s, ns, now);
  }

  /** If a story is not steady, some tale of it ends elsewhere. */
  lemma RestlessTale(s: Story, now: int) returns (ns: seq<Notice>)
    requires WellFormed(s) && s.acts != [] && s.charges != [] && Effective(s, now, Last(s)) && !Steady(s, now)
    ensures Whole(s, ns) && Fold(s, None, ns, now) != Some(Target(s))
  {
    hide WellFormed; hide Fold; hide Whole; hide FirstRow;
    if i :| 0 <= i < |s.troubles| && !IsStale(s.troubles[i], Target(s).mark) {
      ns := LateTroubleTale(s, s.acts[0], i, now);
    } else if s.Stamp(Last(s)).None? {
      AllStale(s);
      var k :| 0 <= k < Last(s) && Effective(s, now, k) && s.Stamp(k).Some? && s.Stamp(k) != OldMark(s);
      ns := MarkedTale(s, s.acts[0], k, now);
      AheadOfOld(s, now, k);
    } else {
      ns := LateActOnly(s, now);
    }
  }

  lemma AllStale(s: Story)
    requires s.charges != [] && s.Stamp(Last(s)).None?
    requires forall i :: 0 <= i < |s.troubles| ==> IsStale(s.troubles[i], Target(s).mark)
    ensures !Biting(s)
  {
    forall u | u in s.troubles ensures IsStale(u, OldMark(s)) {
      var i :| 0 <= i < |s.troubles| && s.troubles[i] == u;
    }
    hide FirstRow; hide IsStale;
  }

  lemma AheadOfOld(s: Story, now: int, k: nat)
    requires WellFormed(s) && s.charges != [] && s.Stamp(Last(s)).None? && k < |s.charges| && Effective(s, now, k)
    requires s.Stamp(k).Some? && s.Stamp(k) != OldMark(s)
    ensures !MarkAtLeast(Some(Target(s)), s.Stamp(k).value)
  {
    assert s.charges[k] in s.charges;
    hide DefaultPeriod; hide UniqueKeys;
  }

  lemma LateActOnly(s: Story, now: int) returns (ns: seq<Notice>)
    requires WellFormed(s) && s.acts != [] && s.charges != [] && s.Stamp(Last(s)).Some? && !Calm(s)
    requires forall i :: 0 <= i < |s.troubles| ==> IsStale(s.troubles[i], Target(s).mark)
    ensures Whole(s, ns) && Fold(s, None, ns, now) != Some(Target(s))
  {
    hide WellFormed; hide Fold; hide Whole; hide FirstRow;
    var u :| u in s.troubles && !IsStale(u, OldMark(s));
    var i :| 0 <= i < |s.troubles| && s.troubles[i] == u;
    var a :| a in s.acts && a.createdAt.Some? && a.createdAt.value > s.Stamp(Last(s)).value;
    var a' := if s.acts[0] == a then s.acts[1] else s.acts[0];
    TwoActs(s);
    ns := LateActTale(s, a', i, a, now);
  }

  lemma TwoActs(s: Story)
    requires WellFormed(s) && |s.acts| > 1
    ensures s.acts[0] != s.acts[1]
  {
    assert s.All()[0] == s.acts[0] && s.All()[1] == s.acts[1];
  }
}
