/** When a single retry sweep is enough. */
module OneSweep {
  import opened Tables
  import opened Subscriptions
  import opened SubscriptionSafety
  import opened SubscriptionSweeps

  ghost predicate HasId(subs: seq<Sub>, x: string) { exists j :: 0 <= j < |subs| && subs[j].ext == Some(x) }
  ghost predicate HasTenant(subs: seq<Sub>, t: nat) { exists j :: 0 <= j < |subs| && subs[j].tenant == t }

  lemma MatchedById(subs: seq<Sub>, x: string)
    ensures SubFor(subs, Some(x)).Some? <==> HasId(subs, x)
  {
    NoSubHas(subs, x);
  }

  lemma FoundByTenant(subs: seq<Sub>, t: nat)
    ensures Find(subs, OfTenant(t)).Some? <==> HasTenant(subs, t)
  {
    NoSubOf(subs, t);
  }

  /** Provider ids are the provider's: a subscription and a checkout with one id belong to one workspace. */
  ghost predicate IdsOwn(subs: seq<Sub>, checkouts: seq<Checkout>) {
    forall j, k :: 0 <= j < |subs| && 0 <= k < |checkouts| && subs[j].ext.Some? && subs[j].ext == checkouts[k].ext ==>
      subs[j].tenant == checkouts[k].tenant
  }

  ghost predicate Proper(db: Db) {
    SubsUnique(db.subs) && CheckoutsUnique(db.checkouts) && IdsOwn(db.subs, db.checkouts)
  }

  /** A pending cancellation of this id stands among the first k of the order. */
  ghost predicate Ended(db: Db, order: seq<nat>, k: nat, y: Option<string>)
    requires k <= |order|
  {
    y.Some? && exists p :: 0 <= p < k && Ends(db, order[p], y)
  }

  ghost predicate Ends(db: Db, i: nat, y: Option<string>) {
    i < |db.events| && !db.events[i].processed && db.events[i].notice.kind.Cancelled? && db.events[i].notice.ext == y
  }

  /** The subscription this checkout upgrades when it is activated at position q: a lower plan of its workspace, not
      canceled, and not about to be by a cancellation that stands before q. */
  ghost predicate Lifts(db: Db, order: seq<nat>, q: nat, c: Checkout, j: nat)
    requires q <= |order|
  {
    && j < |db.subs| && db.subs[j].tenant == c.tenant && Rises(db.subs[j], c)
    && !db.subs[j].status.Canceled? && !Ended(db, order, q, db.subs[j].ext)
  }

  predicate Rises(s: Sub, c: Checkout) { s.plan.id != c.plan.id && Classify(s.plan, c.plan).Upgrade? }

  /** Position q holds a pending activation that gives a subscription this id, by creating or by upgrading it. */
  ghost predicate Opener(db: Db, order: seq<nat>, q: nat, x: string)
    requires q < |order|
  {
    && order[q] < |db.events| && !db.events[order[q]].processed && !HasId(db.subs, x)
    && db.events[order[q]].notice.kind.Activated? && db.events[order[q]].notice.ext == Some(x)
    && exists k :: 0 <= k < |db.checkouts| && db.checkouts[k].ext == Some(x) && Serves(db, order, q, db.checkouts[k])
  }

  ghost predicate Serves(db: Db, order: seq<nat>, q: nat, c: Checkout)
    requires q <= |order|
  {
    !HasTenant(db.subs, c.tenant) || exists j :: Lifts(db, order, q, c, j)
  }

  /** Such an activation stands among the first k of the order. */
  ghost predicate Opened(db: Db, order: seq<nat>, k: nat, x: string)
    requires k <= |order|
  {
    exists q :: 0 <= q < k && Opener(db, order, q, x)
  }

  /** A young charge, pending and unmatched, that is only ever processed before the activation of its id. */
  ghost predicate Missed(db: Db, order: seq<nat>, i: nat, now: int) {
    && i < |db.events| && !db.events[i].processed && Stuck(db, i, now)
    && var x := db.events[i].notice.ext.value;
       && Opened(db, order, |order|, x)
       && forall p, q :: 0 <= p < |order| && 0 <= q < |order| && order[p] == i && Opener(db, order, q, x) ==> p < q
  }

  // ---------- what has become of every row after the first k of the order ----------

  /** The workspace's checkout has been activated. */
  ghost predicate Moved(db: Db, order: seq<nat>, k: nat, c: Checkout, t: nat)
    requires k <= |order|
  {
    c in db.checkouts && c.tenant == t && c.ext.Some? && Opened(db, order, k, c.ext.value)
  }

  /** An old row has its checkout's plan and id if that has been activated, and else its own, canceled if it was or
      its cancellation stood among the first k. */
  ghost predicate OldRow(db: Db, order: seq<nat>, k: nat, s: Sub, s': Sub)
    requires k <= |order|
  {
    && s'.tenant == s.tenant
    && (forall c :: Moved(db, order, k, c, s.tenant) ==> s'.ext == c.ext && s'.plan == c.plan)
    && ((forall c :: !Moved(db, order, k, c, s.tenant)) ==>
          && s'.ext == s.ext && s'.plan == s.plan
          && (s'.status.Canceled? <==> s.status.Canceled? || Ended(db, order, k, s.ext)))
  }

  /** A new row is that of an activated checkout of a workspace that had none. */
  ghost predicate NewRow(db: Db, order: seq<nat>, k: nat, s': Sub)
    requires k <= |order|
  {
    exists c :: Moved(db, order, k, c, s'.tenant) && !HasTenant(db.subs, c.tenant) && s'.plan == c.plan
        && s'.ext == c.ext
  }

  ghost predicate Tracks(db: Db, order: seq<nat>, k: nat, w: Db)
    requires k <= |order|
  {
    && w.checkouts == db.checkouts && EventsMove(db.events, w.events) && SubsUnique(w.subs)
    && |db.subs| <= |w.subs|
    && (forall j :: 0 <= j < |db.subs| ==> OldRow(db, order, k, db.subs[j], w.subs[j]))
    && (forall j :: |db.subs| <= j < |w.subs| ==> NewRow(db, order, k, w.subs[j]))
    && (forall c: Checkout :: Moved(db, order, k, c, c.tenant) ==> HasTenant(w.subs, c.tenant))
    && InOrder(db, order, k, w)
  }

  /** Where an id is by then: an opened one is held, one that was there is held unless its row has moved. */
  lemma HeldFrom(db: Db, order: seq<nat>, k: nat, w: Db, j: nat, x: string)
    requires k <= |order| && Proper(db) && Tracks(db, order, k, w) && j < |w.subs| && w.subs[j].ext == Some(x)
    ensures !HasId(db.subs, x) ==> Opened(db, order, k, x)
    ensures HasId(db.subs, x) ==> j < |db.subs| && db.subs[j].ext == Some(x)
                                  && forall c :: !Moved(db, order, k, c, db.subs[j].tenant)
  {
    hide Ended; hide EventsMove; hide SubsUnique; hide HasTenant; hide Proper;
    if j < |db.subs| {
      assert OldRow(db, order, k, db.subs[j], w.subs[j]);
      if c :| Moved(db, order, k, c, db.subs[j].tenant) { OpenedIsNew(db, order, k, x); }
    } else {
      assert NewRow(db, order, k, w.subs[j]);
      OpenedIsNew(db, order, k, x);
    }
    hide Opened; hide Tracks;
  }

  lemma OpenedIsNew(db: Db, order: seq<nat>, k: nat, x: string)
    requires k <= |order|
    ensures Opened(db, order, k, x) ==> !HasId(db.subs, x)
  {
    hide HasId; hide Serves;
  }

  lemma TrackedIds(db: Db, order: seq<nat>, k: nat, w: Db, x: string)
    requires k <= |order| && Proper(db) && Tracks(db, order, k, w)
    ensures Opened(db, order, k, x) ==> HasId(w.subs, x) && !HasId(db.subs, x)
    ensures HasId(w.subs, x) && !HasId(db.subs, x) ==> Opened(db, order, k, x)
    ensures HasId(w.subs, x) && HasId(db.subs, x) ==>
              exists j :: 0 <= j < |db.subs| && db.subs[j].ext == Some(x) && w.subs[j].ext == Some(x)
                          && forall c :: !Moved(db, order, k, c, db.subs[j].tenant)
    ensures !HasId(w.subs, x) && HasId(db.subs, x) ==>
              exists j, c :: 0 <= j < |db.subs| && db.subs[j].ext == Some(x)
                  && Moved(db, order, k, c, db.subs[j].tenant)
  {
    if Opened(db, order, k, x) { OpenedHeld(db, order, k, w, x); }
    if HasId(w.subs, x) {
      var j :| 0 <= j < |w.subs| && w.subs[j].ext == Some(x);
      HeldFrom(db, order, k, w, j, x);
    }
    if !HasId(w.subs, x) && HasId(db.subs, x) {
      var j :| 0 <= j < |db.subs| && db.subs[j].ext == Some(x);
      assert OldRow(db, order, k, db.subs[j], w.subs[j]);
      assert w.subs[j].ext != Some(x);
      hide Moved; hide Ended;
    }
    hide Opener; hide Tracks; hide Proper; hide Opened;
  }

  lemma OpenedHeld(db: Db, order: seq<nat>, k: nat, w: Db, x: string)
    requires k <= |order| && Proper(db) && Tracks(db, order, k, w) && Opened(db, order, k, x)
    ensures HasId(w.subs, x) && !HasId(db.subs, x)
  {
    var q :| 0 <= q < k && Opener(db, order, q, x);
    var n :| 0 <= n < |db.checkouts| && db.checkouts[n].ext == Some(x) && Serves(db, order, q, db.checkouts[n]);
    var c := db.checkouts[n];
    assert Moved(db, order, k, c, c.tenant);
    var j :| 0 <= j < |w.subs| && w.subs[j].tenant == c.tenant;
    hide Serves; hide Opened; hide Ended; hide EventsMove; hide SubsUnique; hide Opener;
    if j < |db.subs| {
      assert OldRow(db, order, k, db.subs[j], w.subs[j]);
    } else {
      assert NewRow(db, order, k, w.subs[j]);
      assert w.subs[j].ext == Some(x) by { NewRowIs(db, order, k, w.subs[j], c); }
    }
  }

  lemma NewRowIs(db: Db, order: seq<nat>, k: nat, s': Sub, c: Checkout)
    requires k <= |order| && NewRow(db, order, k, s') && Moved(db, order, k, c, s'.tenant)
    ensures !HasTenant(db.subs, s'.tenant) && s'.ext.Some?
    ensures CheckoutsUnique(db.checkouts) ==> s'.plan == c.plan && s'.ext == c.ext
  {
    hide Opened; hide HasTenant;
  }

  // ---------- one event ----------

  lemma MatchedEvent(w: Db, e: Event, now: int, m: nat)
    requires SubFor(w.subs, e.notice.ext) == Some(m)
    ensures var subs' := Apply(w, e, now).0;
            && |subs'| == |w.subs| && subs' == w.subs[m := subs'[m]]
            && SameKeys(w.subs[m], subs'[m])
            && (subs'[m].status.Canceled? <==> w.subs[m].status.Canceled? || e.notice.kind.Cancelled?)
  {
    hide Find; hide SubFor; hide DefaultPeriod;
  }

  predicate SameKeys(s: Sub, s': Sub) { s'.tenant == s.tenant && s'.plan == s.plan && s'.ext == s.ext }

  lemma UnmatchedEvent(w: Db, e: Event, now: int)
    requires SubFor(w.subs, e.notice.ext).None?
    requires !e.notice.kind.Activated? || forall k :: 0 <= k < |w.checkouts| ==> w.checkouts[k].ext != e.notice.ext
    ensures Apply(w, e, now).0 == w.subs
  {
    if e.notice.ext.Some? {
      var k := Find(w.checkouts, ForExt(e.notice.ext.value));
      if k.Some? { assert ForExt(e.notice.ext.value)(w.checkouts[k.value]); }
    }
    hide Find; hide SubFor; hide Classify;
  }

  /** What an unmatched activation does for its checkout. */
  lemma UnmatchedActivation(w: Db, e: Event, now: int, k: nat)
    requires e.notice.kind.Activated? && e.notice.ext.Some? && SubFor(w.subs, e.notice.ext).None?
    requires k < |w.checkouts| && w.checkouts[k].ext == e.notice.ext && CheckoutsUnique(w.checkouts)
    ensures var subs', c := Apply(w, e, now).0, w.checkouts[k];
            && (!HasTenant(w.subs, c.tenant) ==>
                  && |subs'| == |w.subs| + 1 && subs' == w.subs + [subs'[|w.subs|]]
                  && var s := subs'[|w.subs|]; s.tenant == c.tenant && s.plan == c.plan && s.ext == c.ext)
            && (SubsUnique(w.subs) ==> forall j :: 0 <= j < |w.subs| && w.subs[j].tenant == c.tenant ==>
                  && |subs'| == |w.subs| && subs' == w.subs[j := subs'[j]]
                  && if Rises(w.subs[j], c) && !w.subs[j].status.Canceled?
                     then subs'[j].tenant == c.tenant && subs'[j].plan == c.plan && subs'[j].ext == c.ext
                     else SameKeys(w.subs[j], subs'[j]) && (subs'[j].status.Canceled? <==> w.subs[j].status.Canceled?))
  {
    var x, c := e.notice.ext.value, w.checkouts[k];
    assert ForExt(x)(c);
    var found := Find(w.checkouts, ForExt(x));
    assert ForExt(x)(w.checkouts[found.value]);
    assert found == Some(k);
    NoSubOf(w.subs, c.tenant);
    FoundByTenant(w.subs, c.tenant);
    hide Find; hide SubFor; hide Classify; hide DefaultPeriod; hide CheckoutsUnique;
  }

  // ---------- one step of the sweep ----------

  lemma OpenedStep(db: Db, order: seq<nat>, k: nat)
    requires k < |order|
    ensures forall x :: Opened(db, order, k + 1, x) <==> Opened(db, order, k, x) || Opener(db, order, k, x)
    ensures forall y :: Ended(db, order, k + 1, y) <==> Ended(db, order, k, y) || (y.Some? && Ends(db, order[k], y))
  {
    hide Opener; hide Ends;
  }

  /** Nothing opens, and every row keeps workspace, plan and id. */
  lemma KeepsTrack(db: Db, order: seq<nat>, k: nat, w: Db, w': Db)
    requires k < |order| && Tracks(db, order, k, w) && w'.checkouts == w.checkouts && SubsUnique(w'.subs)
    requires |w'.subs| == |w.subs| && forall j :: 0 <= j < |w.subs| ==> SameKeys(w.subs[j], w'.subs[j])
    requires EventsMove(db.events, w'.events) && InOrder(db, order, k + 1, w')
    requires forall x :: Opener(db, order, k, x) ==> Opened(db, order, k, x)
    requires forall j :: 0 <= j < |db.subs| && w.subs[j].ext == db.subs[j].ext ==>
               (w'.subs[j].status.Canceled? <==>
                  w.subs[j].status.Canceled? || (db.subs[j].ext.Some? && Ends(db, order[k], db.subs[j].ext)))
    ensures Tracks(db, order, k + 1, w')
  {
    OpenedStep(db, order, k);
    assert forall c, u: nat :: Moved(db, order, k + 1, c, u) <==> Moved(db, order, k, c, u);
    forall j | 0 <= j < |db.subs| ensures OldRow(db, order, k + 1, db.subs[j], w'.subs[j]) {
      assert OldRow(db, order, k, db.subs[j], w.subs[j]) && SameKeys(w.subs[j], w'.subs[j]);
      hide Moved; hide Ended; hide Ends; hide Opener;
    }
    hide Moved; hide Opener;
    forall j | |db.subs| <= j < |w'.subs| ensures NewRow(db, order, k + 1, w'.subs[j]) {
      assert NewRow(db, order, k, w.subs[j]) && SameKeys(w.subs[j], w'.subs[j]);
    }
    forall c: Checkout | Moved(db, order, k + 1, c, c.tenant) ensures HasTenant(w'.subs, c.tenant) {
      var j :| 0 <= j < |w.subs| && w.subs[j].tenant == c.tenant;
      assert SameKeys(w.subs[j], w'.subs[j]);
    }
    hide EventsMove; hide SubsUnique; hide OldRow; hide NewRow; hide Opened; hide Ended;
  }

  ghost predicate InOrder(db: Db, order: seq<nat>, k: nat, w: Db)
    requires k <= |order|
  {
    |w.events| == |db.events|
    && forall i :: 0 <= i < |db.events| && !db.events[i].processed && w.events[i].processed ==> i in order[..k]
  }

  /** An activation's opening adds its checkout to those that have been activated, and no cancellation. */
  lemma OpensOnly(db: Db, order: seq<nat>, k: nat, x: string, c: Checkout)
    requires k < |order| && Proper(db) && Opener(db, order, k, x) && c in db.checkouts && c.ext == Some(x)
    ensures forall d, u: nat ::
              (Moved(db, order, k + 1, d, u) <==> Moved(db, order, k, d, u) || (d == c && u == c.tenant))
    ensures forall y :: Ended(db, order, k + 1, y) <==> Ended(db, order, k, y)
  {
    OpenedStep(db, order, k);
    assert forall y :: !Ends(db, order[k], y);
    assert forall z :: Opener(db, order, k, z) ==> z == x;
    assert forall d :: d in db.checkouts && d.ext == Some(x) ==> d == c;
    hide Opener; hide Ends; hide Ended; hide Opened; hide Proper; hide CheckoutsUnique;
    forall d, u: nat
      ensures Moved(db, order, k + 1, d, u) <==> Moved(db, order, k, d, u) || (d == c && u == c.tenant)
    {
      if d.ext.Some? && Opener(db, order, k, d.ext.value) { assert d.ext == Some(x); }
    }
  }

  /** The row of a workspace that had none appears. */
  lemma AppendsTrack(db: Db, order: seq<nat>, k: nat, w: Db, w': Db, c: Checkout, s: Sub)
    requires k < |order| && Proper(db) && Tracks(db, order, k, w) && w' == w.(subs := w.subs + [s], events := w'.events)
    requires EventsMove(db.events, w'.events) && InOrder(db, order, k + 1, w') && SubsUnique(w'.subs)
    requires c in db.checkouts && c.ext.Some? && Opener(db, order, k, c.ext.value) && !HasTenant(w.subs, c.tenant)
    requires s.tenant == c.tenant && s.plan == c.plan && s.ext == c.ext
    ensures Tracks(db, order, k + 1, w')
  {
    OpensOnly(db, order, k, c.ext.value, c);
    NoneOfTenant(db, order, k, w, c.tenant);
    hide Opener; hide Opened;
    forall j | 0 <= j < |db.subs| ensures OldRow(db, order, k + 1, db.subs[j], w'.subs[j]) {
      assert OldRow(db, order, k, db.subs[j], w.subs[j]) && w'.subs[j] == w.subs[j];
      assert db.subs[j].tenant != c.tenant;
      hide Moved; hide Ended;
    }
    assert Moved(db, order, k + 1, c, c.tenant);
    hide Moved; hide Ended;
    forall j | |db.subs| <= j < |w'.subs| ensures NewRow(db, order, k + 1, w'.subs[j]) {
      if j < |w.subs| { assert NewRow(db, order, k, w.subs[j]) && w'.subs[j] == w.subs[j]; }
    }
    RowAppended(w.subs, s);
    hide EventsMove; hide SubsUnique; hide OldRow; hide NewRow; hide HasTenant; hide Proper;
  }

  lemma NoneOfTenant(db: Db, order: seq<nat>, k: nat, w: Db, u: nat)
    requires k <= |order| && Tracks(db, order, k, w) && !HasTenant(w.subs, u)
    ensures !HasTenant(db.subs, u) && forall j :: 0 <= j < |db.subs| ==> db.subs[j].tenant != u
  {
    forall j | 0 <= j < |db.subs| ensures db.subs[j].tenant != u {
      assert OldRow(db, order, k, db.subs[j], w.subs[j]);
    }
    hide Opened; hide Ended; hide EventsMove; hide SubsUnique; hide NewRow; hide InOrder; hide Moved;
  }

  lemma RowAppended(subs: seq<Sub>, s: Sub)
    ensures forall u :: HasTenant(subs + [s], u) <==> HasTenant(subs, u) || s.tenant == u
  {
    forall u ensures HasTenant(subs + [s], u) <==> HasTenant(subs, u) || s.tenant == u {
      if j :| 0 <= j < |subs| && subs[j].tenant == u { assert (subs + [s])[j].tenant == u; }
      if s.tenant == u { assert (subs + [s])[|subs|].tenant == u; }
    }
  }

  /** The row of the workspace moves to the checkout's plan and id. */
  lemma LiftsTrack(db: Db, order: seq<nat>, k: nat, w: Db, w': Db, c: Checkout, j: nat, s: Sub)
    requires k < |order| && Proper(db) && Tracks(db, order, k, w)
    requires j < |db.subs| && w' == w.(subs := w.subs[j := s], events := w'.events)
    requires EventsMove(db.events, w'.events) && InOrder(db, order, k + 1, w') && SubsUnique(w'.subs)
    requires c in db.checkouts && c.ext.Some? && Opener(db, order, k, c.ext.value) && db.subs[j].tenant == c.tenant
    requires s.tenant == c.tenant && s.plan == c.plan && s.ext == c.ext
    ensures Tracks(db, order, k + 1, w')
  {
    OthersOfTenant(db, order, k, w, c.tenant, j);
    SameTenants(w.subs, w'.subs);
    assert HasTenant(w.subs, c.tenant);
    hide OldRow; hide NewRow; hide Proper; hide Opener; hide HasTenant; hide EventsMove; hide SubsUnique; hide InOrder;
    hide Moved; hide Opened;
    forall i | 0 <= i < |db.subs| ensures OldRow(db, order, k + 1, db.subs[i], w'.subs[i]) {
      if i == j {
        OldRowLifted(db, order, k, c, db.subs[j], s);
      } else {
        OldRowStays(db, order, k, c, db.subs[i], w.subs[i]);
      }
    }
    forall i | |db.subs| <= i < |w'.subs| ensures NewRow(db, order, k + 1, w'.subs[i]) {
      NewRowStays(db, order, k, c, w.subs[i]);
    }
    AllServed(db, order, k, w, c);
  }

  lemma AllServed(db: Db, order: seq<nat>, k: nat, w: Db, c: Checkout)
    requires k < |order| && Proper(db) && Tracks(db, order, k, w) && HasTenant(w.subs, c.tenant)
    requires c in db.checkouts && c.ext.Some? && Opener(db, order, k, c.ext.value)
    ensures forall d: Checkout :: Moved(db, order, k + 1, d, d.tenant) ==> HasTenant(w.subs, d.tenant)
  {
    OpensOnly(db, order, k, c.ext.value, c);
    hide Moved; hide OldRow; hide NewRow; hide Proper; hide Opener; hide HasTenant; hide EventsMove; hide SubsUnique;
    hide InOrder;
  }

  lemma OldRowStays(db: Db, order: seq<nat>, k: nat, c: Checkout, s: Sub, s': Sub)
    requires k < |order| && Proper(db) && c in db.checkouts && c.ext.Some? && Opener(db, order, k, c.ext.value)
    requires OldRow(db, order, k, s, s') && s.tenant != c.tenant
    ensures OldRow(db, order, k + 1, s, s')
  {
    OpensOnly(db, order, k, c.ext.value, c);
    hide Proper; hide Opener; hide Moved; hide Ended;
  }

  lemma OldRowLifted(db: Db, order: seq<nat>, k: nat, c: Checkout, s: Sub, s': Sub)
    requires k < |order| && Proper(db) && c in db.checkouts && c.ext.Some? && Opener(db, order, k, c.ext.value)
    requires s.tenant == s'.tenant == c.tenant && s'.plan == c.plan && s'.ext == c.ext
    ensures OldRow(db, order, k + 1, s, s')
  {
    OpensOnly(db, order, k, c.ext.value, c);
    OwnCheckout(db, order, k, c);
    hide Proper; hide Opener; hide Moved; hide Ended;
    assert Moved(db, order, k + 1, c, s.tenant);
  }

  lemma NewRowStays(db: Db, order: seq<nat>, k: nat, c: Checkout, s': Sub)
    requires k < |order| && Proper(db) && c in db.checkouts && c.ext.Some? && Opener(db, order, k, c.ext.value)
    requires NewRow(db, order, k, s')
    ensures NewRow(db, order, k + 1, s')
  {
    OpensOnly(db, order, k, c.ext.value, c);
    hide Proper; hide Opener; hide Moved; hide HasTenant;
  }

  lemma OwnCheckout(db: Db, order: seq<nat>, k: nat, c: Checkout)
    requires k <= |order| && Proper(db) && c in db.checkouts
    ensures forall d :: Moved(db, order, k, d, c.tenant) ==> d == c
  {
    hide Opened; hide SubsUnique; hide IdsOwn;
  }

  lemma SameTenants(subs: seq<Sub>, subs': seq<Sub>)
    requires |subs'| == |subs| && forall j :: 0 <= j < |subs| ==> subs'[j].tenant == subs[j].tenant
    ensures forall u :: HasTenant(subs', u) <==> HasTenant(subs, u)
  {
    forall u ensures HasTenant(subs', u) <==> HasTenant(subs, u) {
      if j :| 0 <= j < |subs| && subs[j].tenant == u { assert subs'[j].tenant == u; }
      if j :| 0 <= j < |subs'| && subs'[j].tenant == u { assert subs[j].tenant == u; }
    }
  }

  lemma OthersOfTenant(db: Db, order: seq<nat>, k: nat, w: Db, u: nat, j: nat)
    requires k <= |order| && Proper(db) && Tracks(db, order, k, w) && j < |db.subs| && db.subs[j].tenant == u
    ensures w.subs[j].tenant == u
    ensures forall i :: 0 <= i < |db.subs| && i != j ==> db.subs[i].tenant != u
  {
    assert OldRow(db, order, k, db.subs[j], w.subs[j]);
    hide Opened; hide Ended; hide EventsMove; hide NewRow; hide InOrder; hide Moved; hide CheckoutsUnique; hide IdsOwn;
  }

  lemma TracksStart(db: Db, order: seq<nat>)
    requires Proper(db)
    ensures Tracks(db, order, 0, db)
  {
    assert forall c, u: nat :: !Moved(db, order, 0, c, u);
    assert forall y :: !Ended(db, order, 0, y);
    hide Moved; hide Ended; hide CheckoutsUnique; hide IdsOwn;
  }

  lemma OnlyThatEvent(w: Db, i: nat, now: int)
    ensures var w' := ProcessEvent(w, i, now).0;
            && w' == w.(subs := w'.subs, events := w'.events)
            && forall j :: 0 <= j < |w.events| && j != i ==> j < |w'.events| && w'.events[j] == w.events[j]
    ensures i >= |w.events| || w.events[i].processed ==> ProcessEvent(w, i, now).0 == w
    ensures i < |w.events| && !w.events[i].processed ==> ProcessEvent(w, i, now).0.subs == Apply(w, w.events[i], now).0
  {
    hide Apply;
  }

  /** Events after the step: what is processed then stands in the order by then. */
  lemma EventsAfterStep(db: Db, order: seq<nat>, k: nat, w: Db, now: int)
    requires k < |order| && EventsMove(db.events, w.events) && InOrder(db, order, k, w) && SubsUnique(w.subs)
    ensures var w' := ProcessEvent(w, order[k], now).0;
            && EventsMove(db.events, w'.events) && InOrder(db, order, k + 1, w') && SubsUnique(w'.subs)
            && w'.checkouts == w.checkouts
  {
    var i := order[k];
    assert order[..k + 1] == order[..k] + [i];
    ProcessMoves(w, i, now);
    OnlyThatEvent(w, i, now);
    if i < |w.events| { ApplyUnique(w, w.events[i], now); }
    hide Apply; hide SubsUnique; hide Stuck; hide Retryable;
  }

  /** An event met again, or not pending from the start, does nothing and opens nothing new. */
  lemma SpentStep(db: Db, order: seq<nat>, k: nat, w: Db)
    requires k < |order| && Proper(db) && Tracks(db, order, k, w) && InOrder(db, order, k + 1, w)
    requires order[k] >= |w.events| || w.events[order[k]].processed
    ensures Tracks(db, order, k + 1, w)
  {
    var i := order[k];
    forall x | Opener(db, order, k, x) ensures Opened(db, order, k, x) {
      var p :| 0 <= p < k && order[p] == i;
      EarlierOpener(db, order, p, k, x);
    }
    forall j | 0 <= j < |db.subs| && w.subs[j].ext == db.subs[j].ext && db.subs[j].ext.Some?
        && Ends(db, i, db.subs[j].ext)
      ensures w.subs[j].status.Canceled?
    {
      var p :| 0 <= p < k && order[p] == i;
      assert Ended(db, order, k, db.subs[j].ext);
      assert OldRow(db, order, k, db.subs[j], w.subs[j]);
      UnmovedKeepsId(db, order, k, w, j);
    }
    hide Moved; hide Opened; hide Opener; hide OldRow; hide NewRow; hide Ended; hide Ends; hide Proper;
    KeepsTrack(db, order, k, w, w);
  }

  lemma EarlierOpener(db: Db, order: seq<nat>, p: nat, k: nat, x: string)
    requires p < k < |order| && order[p] == order[k] && Opener(db, order, k, x)
    ensures Opened(db, order, k, x)
  {
    var n :| 0 <= n < |db.checkouts| && db.checkouts[n].ext == Some(x) && Serves(db, order, k, db.checkouts[n]);
    var c := db.checkouts[n];
    if j: nat :| Lifts(db, order, k, c, j) {
      assert !Ended(db, order, p, db.subs[j].ext);
      assert Lifts(db, order, p, c, j);
    }
    assert Serves(db, order, p, c);
    hide Ends; hide HasId; hide HasTenant; hide Rises;
    assert Opener(db, order, p, x);
  }

  /** A row with its old id has not moved. */
  lemma UnmovedKeepsId(db: Db, order: seq<nat>, k: nat, w: Db, j: nat)
    requires k <= |order| && Proper(db) && Tracks(db, order, k, w) && j < |db.subs|
    requires db.subs[j].ext.Some? && w.subs[j].ext == db.subs[j].ext
    ensures forall c :: !Moved(db, order, k, c, db.subs[j].tenant)
  {
    var x := db.subs[j].ext.value;
    assert OldRow(db, order, k, db.subs[j], w.subs[j]) && HasId(db.subs, x);
    OpenedIsNew(db, order, k, x);
    assert forall c :: Moved(db, order, k, c, db.subs[j].tenant) ==> c.ext == Some(x);
    hide Opened; hide Ended; hide EventsMove; hide NewRow; hide InOrder;
  }

  /** An event that finds its subscription. */
  lemma MatchedStep(db: Db, order: seq<nat>, k: nat, w: Db, m: nat, now: int)
    requires k < |order| && Proper(db) && Tracks(db, order, k, w)
    requires order[k] < |w.events| && !w.events[order[k]].processed
    requires SubFor(w.subs, w.events[order[k]].notice.ext) == Some(m)
    ensures Tracks(db, order, k + 1, ProcessEvent(w, order[k], now).0)
  {
    var i := order[k];
    var e, w' := w.events[i], ProcessEvent(w, i, now).0;
    EventsAfterStep(db, order, k, w, now);
    OnlyThatEvent(w, i, now);
    MatchedEvent(w, e, now, m);
    hide Apply; hide ProcessEvent; hide SubFor;
    SameNotice(db, w, i);
    var x := e.notice.ext.value;
    assert HasId(w.subs, x);
    TrackedIds(db, order, k, w, x);
    forall y | Opener(db, order, k, y) ensures Opened(db, order, k, y) { OpenerIs(db, order, k, y); }
    forall j | 0 <= j < |db.subs| && w.subs[j].ext == db.subs[j].ext
      ensures w'.subs[j].status.Canceled? <==>
                w.subs[j].status.Canceled? || (db.subs[j].ext.Some? && Ends(db, i, db.subs[j].ext))
    {
      if j != m { OneHolder(w.subs, j, m); }
    }
    hide Opened; hide Opener; hide OldRow; hide NewRow; hide Ended; hide Ends; hide Proper; hide HasId;
    KeepsTrack(db, order, k, w, w');
  }

  lemma OneHolder(subs: seq<Sub>, j: nat, m: nat)
    requires SubsUnique(subs) && j < |subs| && m < |subs| && j != m
    ensures subs[j].ext.Some? ==> subs[j].ext != subs[m].ext
  {
  }

  lemma SameNotice(db: Db, w: Db, i: nat)
    requires EventsMove(db.events, w.events) && i < |w.events|
    ensures i < |db.events| && w.events[i].notice == db.events[i].notice
    ensures !w.events[i].processed ==> !db.events[i].processed
  {
  }

  lemma OpenerIs(db: Db, order: seq<nat>, k: nat, x: string)
    requires k < |order| && Opener(db, order, k, x)
    ensures order[k] < |db.events| && !HasId(db.subs, x)
    ensures db.events[order[k]].notice.kind.Activated? && db.events[order[k]].notice.ext == Some(x)
    ensures exists n ::
              0 <= n < |db.checkouts| && db.checkouts[n].ext == Some(x) && Serves(db, order, k, db.checkouts[n])
  {
    hide HasId; hide Serves;
  }

  /** An event that finds none and is no activation of a checkout. */
  lemma UnmatchedStep(db: Db, order: seq<nat>, k: nat, w: Db, now: int)
    requires k < |order| && Proper(db) && Tracks(db, order, k, w)
    requires order[k] < |w.events| && !w.events[order[k]].processed
    requires SubFor(w.subs, w.events[order[k]].notice.ext).None?
    requires var n := w.events[order[k]].notice;
             !n.kind.Activated? || n.ext.None? || forall j :: 0 <= j < |db.checkouts| ==> db.checkouts[j].ext != n.ext
    ensures Tracks(db, order, k + 1, ProcessEvent(w, order[k], now).0)
  {
    var i := order[k];
    var e, w' := w.events[i], ProcessEvent(w, i, now).0;
    EventsAfterStep(db, order, k, w, now);
    OnlyThatEvent(w, i, now);
    SameNotice(db, w, i);
    if e.notice.ext.Some? { UnmatchedEvent(w, e, now); } else { NoIdNoEffect(w, e, now); }
    if e.notice.ext.Some? { MatchedById(w.subs, e.notice.ext.value); }
    hide Apply; hide ProcessEvent; hide SubFor;
    NothingToServe(db, order, k);
    forall j | 0 <= j < |db.subs| && w.subs[j].ext == db.subs[j].ext && db.subs[j].ext.Some?
      ensures !Ends(db, i, db.subs[j].ext)
    {
      assert HasId(w.subs, db.subs[j].ext.value);
    }
    hide Opened; hide Opener; hide OldRow; hide NewRow; hide Ended; hide Ends; hide Proper; hide HasId; hide Serves;
    KeepsTrack(db, order, k, w, w');
  }

  lemma NothingToServe(db: Db, order: seq<nat>, k: nat)
    requires k < |order| && order[k] < |db.events|
    requires var n := db.events[order[k]].notice;
             n.kind.Activated? ==> forall j :: 0 <= j < |db.checkouts| && db.checkouts[j].ext == n.ext ==>
                                     n.ext.None? || !Serves(db, order, k, db.checkouts[j])
    ensures forall y :: !Opener(db, order, k, y)
  {
    hide HasId; hide Serves;
  }

  lemma NoIdNoEffect(w: Db, e: Event, now: int)
    requires e.notice.ext.None?
    ensures Apply(w, e, now).0 == w.subs
  {
    hide Find;
  }

  /** An unmatched activation of a checkout opens its id exactly if it serves it. */
  lemma ActivationStep(db: Db, order: seq<nat>, k: nat, w: Db, n: nat, now: int)
    requires k < |order| && Proper(db) && Tracks(db, order, k, w)
    requires order[k] < |w.events| && !w.events[order[k]].processed && n < |db.checkouts|
    requires var e := w.events[order[k]].notice;
             e.kind.Activated? && e.ext.Some? && SubFor(w.subs, e.ext).None? && db.checkouts[n].ext == e.ext
    ensures Tracks(db, order, k + 1, ProcessEvent(w, order[k], now).0)
  {
    var i, c := order[k], db.checkouts[n];
    var e, w' := w.events[i], ProcessEvent(w, i, now).0;
    var x := e.notice.ext.value;
    EventsAfterStep(db, order, k, w, now);
    OnlyThatEvent(w, i, now);
    SameNotice(db, w, i);
    MatchedById(w.subs, x);
    TrackedIds(db, order, k, w, x);
    NotThereBefore(db, order, k, w, n, x);
    UnmatchedActivation(w, e, now, n);
    hide Apply; hide ProcessEvent; hide SubFor; hide HasId;
    if !HasTenant(w.subs, c.tenant) {
      NoneOfTenant(db, order, k, w, c.tenant);
      assert Serves(db, order, k, c) && Opener(db, order, k, x);
      hide Opener; hide Tracks; hide Proper; hide Serves;
      AppendsTrack(db, order, k, w, w', c, w'.subs[|w.subs|]);
    } else {
      var j := UnopenedRow(db, order, k, w, c, x);
      ServesExactly(db, order, k, w, c, j);
      hide HasTenant;
      if Rises(w.subs[j], c) && !w.subs[j].status.Canceled? {
        assert Opener(db, order, k, x);
        hide Opener; hide Tracks; hide Proper; hide Serves; hide Rises;
        LiftsTrack(db, order, k, w, w', c, j, w'.subs[j]);
      } else {
        assert forall d :: 0 <= d < |db.checkouts| && db.checkouts[d].ext == Some(x) ==> d == n;
        NothingToServe(db, order, k);
        assert forall y :: !Ends(db, i, y);
        hide Opener; hide Ends; hide Proper; hide Serves; hide Rises; hide Opened; hide OldRow; hide NewRow;
        KeepsTrack(db, order, k, w, w');
      }
    }
  }

  /** With a checkout for it, an id that no row holds was held by none at the start. */
  lemma NotThereBefore(db: Db, order: seq<nat>, k: nat, w: Db, n: nat, x: string)
    requires k <= |order| && Proper(db) && Tracks(db, order, k, w) && !HasId(w.subs, x)
    requires n < |db.checkouts| && db.checkouts[n].ext == Some(x)
    ensures !HasId(db.subs, x) && !Opened(db, order, k, x)
  {
    TrackedIds(db, order, k, w, x);
    OpenedIsNew(db, order, k, x);
    var own := db.checkouts[n];
    assert forall c :: c in db.checkouts && c.tenant == own.tenant ==> c == own;
    forall j, c | 0 <= j < |db.subs| && db.subs[j].ext == Some(x) ensures !Moved(db, order, k, c, db.subs[j].tenant) {
      assert HasId(db.subs, x);
      assert db.subs[j].tenant == own.tenant;
      hide Opened; hide HasId;
    }
    hide Tracks; hide Opened; hide Moved;
  }

  /** The row of a workspace whose checkout has not been activated is an old one that has not moved. */
  lemma UnopenedRow(db: Db, order: seq<nat>, k: nat, w: Db, c: Checkout, x: string) returns (j: nat)
    requires k <= |order| && Proper(db) && Tracks(db, order, k, w) && HasTenant(w.subs, c.tenant)
    requires c in db.checkouts && c.ext == Some(x) && !HasId(w.subs, x)
    ensures j < |db.subs| && j < |w.subs| && db.subs[j].tenant == w.subs[j].tenant == c.tenant
    ensures w.subs[j].plan == db.subs[j].plan && w.subs[j].ext == db.subs[j].ext
    ensures w.subs[j].status.Canceled? <==> db.subs[j].status.Canceled? || Ended(db, order, k, db.subs[j].ext)
  {
    j :| 0 <= j < |w.subs| && w.subs[j].tenant == c.tenant;
    hide Opened; hide Ended; hide EventsMove; hide InOrder; hide IdsOwn; hide HasTenant;
    assert w.subs[j].ext != Some(x);
    assert forall d :: d in db.checkouts && d.tenant == c.tenant ==> d == c;
    NewHasCheckout(db, order, k, w, c, j);
    assert OldRow(db, order, k, db.subs[j], w.subs[j]);
    hide NewRow; hide HasId;
    assert forall d :: Moved(db, order, k, d, db.subs[j].tenant) ==> d == c;
  }

  lemma NewHasCheckout(db: Db, order: seq<nat>, k: nat, w: Db, c: Checkout, j: nat)
    requires k <= |order| && Tracks(db, order, k, w) && j < |w.subs| && w.subs[j].tenant == c.tenant
    requires forall d :: d in db.checkouts && d.tenant == c.tenant ==> d == c
    ensures j >= |db.subs| ==> w.subs[j].ext == c.ext
  {
    if j >= |db.subs| { assert NewRow(db, order, k, w.subs[j]); }
    hide Opened; hide EventsMove; hide InOrder; hide HasTenant; hide OldRow;
  }

  lemma ServesExactly(db: Db, order: seq<nat>, k: nat, w: Db, c: Checkout, j: nat)
    requires k <= |order| && Proper(db) && j < |db.subs| && j < |w.subs|
    requires db.subs[j].tenant == c.tenant && w.subs[j].plan == db.subs[j].plan
    requires w.subs[j].status.Canceled? <==> db.subs[j].status.Canceled? || Ended(db, order, k, db.subs[j].ext)
    ensures Serves(db, order, k, c) <==> Rises(w.subs[j], c) && !w.subs[j].status.Canceled?
  {
    assert HasTenant(db.subs, c.tenant);
    if Rises(w.subs[j], c) && !w.subs[j].status.Canceled? { assert Lifts(db, order, k, c, j); }
    hide Ended; hide Rises; hide CheckoutsUnique; hide IdsOwn;
  }

  lemma TrackStep(db: Db, order: seq<nat>, k: nat, w: Db, now: int)
    requires k < |order| && Proper(db) && Tracks(db, order, k, w)
    ensures Tracks(db, order, k + 1, ProcessEvent(w, order[k], now).0)
  {
    var i := order[k];
    EventsOfTracks(db, order, k, w);
    hide Tracks; hide Proper; hide HasId;
    if i >= |w.events| || w.events[i].processed {
      EventsAfterStep(db, order, k, w, now);
      OnlyThatEvent(w, i, now);
      SpentStep(db, order, k, w);
    } else {
      var n := w.events[i].notice;
      var m := SubFor(w.subs, n.ext);
      hide SubFor; hide ProcessEvent;
      if m.Some? {
        MatchedStep(db, order, k, w, m.value, now);
      } else if c :| n.kind.Activated? && n.ext.Some? && 0 <= c < |db.checkouts| && db.checkouts[c].ext == n.ext {
        ActivationStep(db, order, k, w, c, now);
      } else {
        UnmatchedStep(db, order, k, w, now);
      }
    }
  }

  lemma EventsOfTracks(db: Db, order: seq<nat>, k: nat, w: Db)
    requires k <= |order| && Tracks(db, order, k, w)
    ensures EventsMove(db.events, w.events) && InOrder(db, order, k, w) && SubsUnique(w.subs)
  {
    hide EventsMove; hide InOrder; hide SubsUnique; hide OldRow; hide NewRow; hide Moved;
  }

  function AfterFirst(db: Db, order: seq<nat>, k: nat, now: int): Db
    requires k <= |order|
  {
    Run(db, Sweep(order[..k], now))
  }

  lemma {:induction false} TracksAlways(db: Db, order: seq<nat>, k: nat, now: int)
    requires k <= |order| && Proper(db)
    ensures Tracks(db, order, k, AfterFirst(db, order, k, now))
  {
    hide Tracks; hide Proper; hide AfterFirst; hide ProcessEvent;
    if k == 0 {
      TracksStart(db, order);
      FirstNone(db, order, now);
    } else {
      TracksAlways(db, order, k - 1, now);
      FirstOneMore(db, order, k - 1, now);
      TrackStep(db, order, k - 1, AfterFirst(db, order, k - 1, now), now);
    }
  }

  lemma FirstNone(db: Db, order: seq<nat>, now: int)
    ensures AfterFirst(db, order, 0, now) == db
  {
    assert order[..0] == [];
    SweepNone(db, now);
    hide Run;
  }

  lemma FirstOneMore(db: Db, order: seq<nat>, k: nat, now: int)
    requires k < |order|
    ensures AfterFirst(db, order, k + 1, now) == ProcessEvent(AfterFirst(db, order, k, now), order[k], now).0
  {
    assert order[..k + 1][..k] == order[..k];
    SweepSplits(db, order[..k + 1], now);
    hide Run; hide ProcessEvent;
  }

  // ---------- which charges stay pending ----------

  /** Some turn of charge i settles it: its id exists by then, or it is too old to wait. */
  ghost predicate SettledAtTurn(db: Db, order: seq<nat>, n: nat, i: nat, now: int)
    requires n <= |order| && i < |db.events| && Retryable(db.events[i].notice)
  {
    exists p :: 0 <= p < n && order[p] == i
                && (HasId(AfterFirst(db, order, p, now).subs, db.events[i].notice.ext.value)
                    || now - db.events[i].receivedAt > RETRY_WINDOW)
  }

  lemma ChargeTurn(w: Db, i: nat, now: int)
    requires i < |w.events| && !w.events[i].processed && Retryable(w.events[i].notice)
    ensures var w' := ProcessEvent(w, i, now).0;
            && i < |w'.events|
            && (w'.events[i].processed <==>
                  HasId(w.subs, w.events[i].notice.ext.value) || now - w.events[i].receivedAt > RETRY_WINDOW)
  {
    MatchedById(w.subs, w.events[i].notice.ext.value);
    hide Find; hide HasId; hide SubFor;
  }

  /** What one more turn of the order adds for charge i. */
  lemma NextTurn(db: Db, order: seq<nat>, n: nat, i: nat, now: int)
    requires n < |order| && i < |db.events| && !db.events[i].processed && Retryable(db.events[i].notice)
    ensures var w, w' := AfterFirst(db, order, n, now), AfterFirst(db, order, n + 1, now);
            && |w.events| == |w'.events| == |db.events|
            && (w'.events[i].processed <==>
                  || w.events[i].processed
                  || (order[n] == i
                        && (HasId(w.subs, db.events[i].notice.ext.value)
                        || now - db.events[i].receivedAt > RETRY_WINDOW)))
  {
    var w := AfterFirst(db, order, n, now);
    assert order[..n + 1][..n] == order[..n];
    SweepSplits(db, order[..n + 1], now);
    SweepMoves(db, order[..n], now);
    hide Run;
    OnlyThatEvent(w, order[n], now);
    ProcessMoves(w, order[n], now);
    hide ProcessEvent; hide HasId;
    if order[n] == i && !w.events[i].processed { ChargeTurn(w, i, now); }
    hide Stuck; hide Retryable;
  }

  lemma {:induction false} PendingExactly(db: Db, order: seq<nat>, n: nat, i: nat, now: int)
    requires n <= |order| && i < |db.events| && !db.events[i].processed && Retryable(db.events[i].notice)
    ensures |AfterFirst(db, order, n, now).events| == |db.events|
    ensures AfterFirst(db, order, n, now).events[i].processed <==> SettledAtTurn(db, order, n, i, now)
  {
    if n == 0 {
      assert order[..0] == [];
      SweepNone(db, now);
    } else {
      PendingExactly(db, order, n - 1, i, now);
      NextTurn(db, order, n - 1, i, now);
      hide AfterFirst; hide HasId; hide Retryable;
    }
  }

  /** A young charge that misses its activation is still pending afterwards although its subscription exists. */
  lemma MissedIsLeft(db: Db, order: seq<nat>, i: nat, now: int)
    requires Proper(db) && Missed(db, order, i, now)
    ensures !AllStuck(Run(db, Sweep(order, now)), now)
  {
    var x := db.events[i].notice.ext.value;
    MatchedById(db.subs, x);
    PendingExactly(db, order, |order|, i, now);
    assert order[..|order|] == order;
    hide Opener; hide HasId; hide Proper; hide SubFor; hide AfterFirst;
    forall p | 0 <= p < |order| && order[p] == i ensures !HasId(AfterFirst(db, order, p, now).subs, x) {
      IdsThen(db, order, p, now, x);
    }
    IdsThen(db, order, |order|, now, x);
    assert !SettledAtTurn(db, order, |order|, i, now);
    hide SettledAtTurn; hide Opened;
    MatchedById(AfterFirst(db, order, |order|, now).subs, x);
    AfterAll(db, order, now);
    SweepMoves(db, order, now);
    hide Run;
    assert !Stuck(Run(db, Sweep(order, now)), i, now);
  }

  lemma AfterAll(db: Db, order: seq<nat>, now: int)
    ensures AfterFirst(db, order, |order|, now) == Run(db, Sweep(order, now))
  {
    assert order[..|order|] == order;
    hide Run;
  }

  lemma IdsThen(db: Db, order: seq<nat>, k: nat, now: int, x: string)
    requires k <= |order| && Proper(db)
    ensures var subs := AfterFirst(db, order, k, now).subs;
            && (!HasId(db.subs, x) ==> (HasId(subs, x) <==> Opened(db, order, k, x)))
            && (HasId(db.subs, x) && !HasId(subs, x) ==> !HasId(AfterFirst(db, order, |order|, now).subs, x))
  {
    TracksAlways(db, order, k, now);
    TracksAlways(db, order, |order|, now);
    TrackedIds(db, order, k, AfterFirst(db, order, k, now), x);
    TrackedIds(db, order, |order|, AfterFirst(db, order, |order|, now), x);
    hide AfterFirst; hide Tracks; hide HasId; hide Opener;
    if HasId(db.subs, x) && !HasId(AfterFirst(db, order, k, now).subs, x) {
      var j, c :| 0 <= j < |db.subs| && db.subs[j].ext == Some(x) && Moved(db, order, k, c, db.subs[j].tenant);
      assert Moved(db, order, |order|, c, db.subs[j].tenant);
      OnlyHolder(db, x, j);
    }
    hide Moved; hide Proper;
  }

  lemma OnlyHolder(db: Db, x: string, j: nat)
    requires Proper(db) && j < |db.subs| && db.subs[j].ext == Some(x)
    ensures forall i :: 0 <= i < |db.subs| && db.subs[i].ext == Some(x) ==> i == j
  {
    hide CheckoutsUnique; hide IdsOwn;
  }

  /** And nothing else is left that is not stuck. */
  lemma LeftIsMissed(db: Db, order: seq<nat>, i: nat, now: int)
    requires Proper(db) && i in order
    requires i < |db.events| && !db.events[i].processed && Retryable(db.events[i].notice)
    requires var w := Run(db, Sweep(order, now)); i < |w.events| && !w.events[i].processed && !Stuck(w, i, now)
    ensures Missed(db, order, i, now)
  {
    hide HasId; hide Proper; hide Opener; hide SubFor; hide AfterFirst; hide Run;
    var x, w := db.events[i].notice.ext.value, Run(db, Sweep(order, now));
    AfterAll(db, order, now);
    PendingExactly(db, order, |order|, i, now);
    SweepMoves(db, order, now);
    MatchedById(w.subs, x);
    MatchedById(db.subs, x);
    var p0 :| 0 <= p0 < |order| && order[p0] == i;
    assert !HasId(AfterFirst(db, order, p0, now).subs, x) && now - db.events[i].receivedAt <= RETRY_WINDOW;
    IdsThen(db, order, p0, now, x);
    IdsThen(db, order, |order|, now, x);
    forall p, q | 0 <= p < |order| && 0 <= q < |order| && order[p] == i && Opener(db, order, q, x) ensures p < q {
      assert !HasId(AfterFirst(db, order, p, now).subs, x);
      IdsThen(db, order, p, now, x);
      OpenerIs(db, order, q, x);
    }
    hide SettledAtTurn;
  }

  /** One sweep of everything pending, in any order and with any repetition, leaves only stuck charges if and only
      if no young unmatched charge stands in the order only before the first activation that gives a subscription
      its id, by creating it or by a paid upgrade that no cancellation before it stops. */
  lemma OneSweepEnoughExactly(db: Db, order: seq<nat>, now: int)
    requires Covers(order, db.events) && Proper(db)
    ensures AllStuck(Run(db, Sweep(order, now)), now) <==> forall i :: 0 <= i < |db.events| ==>
        !Missed(db, order, i, now)
  {
    var w := Run(db, Sweep(order, now));
    SweepLeaves(db, order, now);
    SweepMoves(db, order, now);
    hide Run; hide Proper; hide Missed; hide Stuck; hide Retryable;
    if i :| 0 <= i < |db.events| && Missed(db, order, i, now) { MissedIsLeft(db, order, i, now); }
    if !AllStuck(w, now) {
      var i :| 0 <= i < |w.events| && !w.events[i].processed && !Stuck(w, i, now);
      LeftIsMissed(db, order, i, now);
    }
  }

  // ---------- provider ids stay the provider's ----------

  /** The provider answers a new checkout with an id no subscription has. */
  ghost predicate FreshAnswer(db: Db, op: Op) { op.CheckoutOp? && op.answer.Some? ==> !HasId(db.subs, op.answer.value) }

  /** Rows keep workspace and id, or take the id of their own workspace's checkout; rows are only added for one. */
  lemma ProcessKeepsIds(db: Db, i: nat, now: int)
    requires Unique(db) && IdsOwn(db.subs, db.checkouts)
    ensures IdsOwn(ProcessEvent(db, i, now).0.subs, db.checkouts)
  {
    if i < |db.events| && !db.events[i].processed {
      var e := db.events[i];
      OnlyThatEvent(db, i, now);
      var m := SubFor(db.subs, e.notice.ext);
      hide Apply; hide SubFor; hide ProcessEvent;
      if m.Some? {
        MatchedEvent(db, e, now, m.value);
      } else if e.notice.ext.None? {
        NoIdNoEffect(db, e, now);
      } else if k :| 0 <= k < |db.checkouts| && db.checkouts[k].ext == e.notice.ext && e.notice.kind.Activated? {
        UnmatchedActivation(db, e, now, k);
        if j :| 0 <= j < |db.subs| && db.subs[j].tenant == db.checkouts[k].tenant {
          assert HasTenant(db.subs, db.checkouts[k].tenant);
        }
      } else {
        UnmatchedEvent(db, e, now);
      }
      hide Rises;
    }
  }

  lemma StepKeepsProper(db: Db, op: Op)
    requires Unique(db) && Proper(db) && !op.UnlockedOp? && FreshAnswer(db, op)
    ensures Unique(Step(db, op)) && Proper(Step(db, op))
  {
    StepUnique(db, op);
    hide Unique; hide SubsUnique; hide CheckoutsUnique; hide Find; hide Apply;
    match op
    case ProcessOp(i, now) => ProcessKeepsIds(db, i, now); hide ProcessEvent;
    case _ =>
  }

  const PLAN := Plan(0, Basic, false)
  const CHARGE := Notice("b", Charged, Some("sub_1"), Some(10), Some(20), Some(10))
  const ACTIVATION := Notice("a", Activated, Some("sub_1"), None, None, None)

  /** One checkout; its charge was recorded before its activation. */
  const LATE := Db([], [Checkout(0, PLAN, Some("sub_1"), false, 0)],
      [Event(CHARGE, 0, false), Event(ACTIVATION, 0, false)])

  lemma LateCharge()
    ensures ProcessEvent(LATE, 0, 0) == (LATE, Deferred)
  {
  }

  lemma LateActivation()
    ensures ProcessEvent(LATE, 1, 0).0 == Db([Sub(0, PLAN, Active, Some("sub_1"), None, 0, 30 * DAY)], LATE.checkouts,
                                             [Event(CHARGE, 0, false), Event(ACTIVATION, 0, true)])
  {
    assert ForExt("sub_1")(LATE.checkouts[0]);
    assert SubFor(LATE.subs, Some("sub_1")).None?;
  }

  /** A store where it is not: swept oldest first, the charge is still pending although its subscription now exists. */
  lemma OneSweepIsNotEnough()
    ensures var db1 := Run(LATE, Sweep([0, 1], 0));
            && Covers([0, 1], LATE.events)
            && |db1.events| == 2 && !db1.events[0].processed && SubFor(db1.subs, Some("sub_1")).Some?
  {
    hide ProcessEvent;
    SweepSplits(LATE, [0, 1], 0);
    assert [0, 1][..1] == [0] && [0][..0] == [];
    SweepSplits(LATE, [0], 0);
    assert Sweep([], 0) == [];
    LateCharge();
    LateActivation();
    var db1 := Run(LATE, Sweep([0, 1], 0));
    assert HasExt("sub_1")(db1.subs[0]);
    assert forall i :: 0 <= i < 2 ==> i in [0, 1];
  }
}
