/** How many intermediates a bundle lists. Nodes refuse more than two. */
module PkiCaps {
  import opened Wrappers
  import opened Seqs
  import opened PkiTypes
  import opened PkiCa
  import opened PkiBundle
  import opened PkiPass
  import opened PkiWorld
  import opened PkiInvariant
  import opened PkiRuns

  /** Listed intermediates that have not run out. */
  function Unexpired(issuers: seq<Issuer>, now: int): (r: seq<Issuer>)
  {
    Filter(issuers, (i: Issuer) => i.state != IssuerRevoked && now <= i.cert.notAfter)
  }

  function RenewedInPass(s: Store, now: int): bool
    requires Shape(s) && s.roots != []
  {
    Renew(ActiveRoot(s.roots), s.issuers, s.unused, now).Renewed? &&
    |Renew(ActiveRoot(s.roots), s.issuers, s.unused, now).issuers| > |s.issuers|
  }

  lemma UnexpiredLive(issuers: seq<Issuer>, now: int)
    requires forall i | 0 <= i < |issuers| && issuers[i].state == IssuerActive :: now <= issuers[i].cert.notAfter
    ensures |Listed(LiveIssuers(issuers, now))| == |Unexpired(issuers, now)|
  {
    var live := (i: Issuer) => IssuerLive(i, now);
    var listed := (i: Issuer) => i.state != IssuerRevoked;
    FilterTwice(issuers, live, listed, (i: Issuer) => i.state != IssuerRevoked && now <= i.cert.notAfter);
  }

  lemma UnexpiredAppend(issuers: seq<Issuer>, older: seq<Issuer>, made: Issuer, now: int)
    requires |older| == |issuers|
    requires forall i | 0 <= i < |issuers| ::
               older[i].cert == issuers[i].cert && (older[i].state == IssuerRevoked <==> issuers[i].state == IssuerRevoked)
    requires made.state == IssuerActive && now <= made.cert.notAfter
    ensures |Unexpired(older + [made], now)| == |Unexpired(issuers, now)| + 1
  {
    var keep := (i: Issuer) => i.state != IssuerRevoked && now <= i.cert.notAfter;
    FilterAppend(older, made, keep);
    FilterCount(older, issuers, keep, keep);
  }

  /** A pass lists what has not run out, and one more when it renews. */
  lemma ListedAfterPass(s: Store, clock: int, now: int)
    requires StoreOk(s, clock) && s.roots != [] && clock <= now && Refreshed(s, now).Ok?
    ensures |Listed(Refreshed(s, now).value.0.issuers)| ==
            |Unexpired(s.issuers, now)| + if RenewedInPass(s, now) then 1 else 0
  {
    hide KeyShape, KeysOrdered, BundlesOrdered, DistinctSerials, RootsOk, IssuersOk, KeysOk, ManageKeys,
         LiveRevocations, Listed, LiveIssuers, Unexpired;
    StoreOkLater(s, clock, now);
    var root := ActiveRoot(s.roots);
    var r := Renew(root, s.issuers, s.unused, now);
    RenewOk(s, now);
    UnexpiredLive(r.issuers, now);
    assert Refreshed(s, now).value.0.issuers == LiveIssuers(r.issuers, now);
    if RenewedInPass(s, now) {
      var cert := NewIntermediate(root.cert, s.unused, now).value;
      var older := if s.issuers == [] then [] else Replaced(s.issuers, IssuerRetired);
      assert r.issuers == older + [Issuer(cert, IssuerActive, now)];
      UnexpiredAppend(s.issuers, older, Issuer(cert, IssuerActive, now), now);
    } else {
      assert r.issuers == s.issuers;
    }
  }

  /** The newest intermediate is due and the key that signs its successor is at hand. */
  predicate WillRenew(s: Store, now: int)
    requires Shape(s) && s.roots != []
  {
    RenewalDue(s.issuers[|s.issuers| - 1].cert, now) && ActiveRoot(s.roots).keyStored
  }

  lemma RenewsExactly(s: Store, now: int)
    requires Shape(s) && s.roots != [] && Refreshed(s, now).Ok?
    ensures RenewedInPass(s, now) <==> WillRenew(s, now)
  {
    hide KeyShape, KeysOrdered, BundlesOrdered, DistinctSerials, ManageKeys, RootShape, RenewalDue, LiveRevocations;
  }

  /**
  Automatic renewal does not look at the limit. The bundle of a pass has too many
  intermediates if and only if more than two listed ones have not run out, or two
  have not and the newest is renewed; no node takes it then.
  */
  lemma PassOverLimit(s: Store, clock: int, now: int, at: int)
    requires StoreOk(s, clock) && s.roots != [] && clock <= now && Refreshed(s, now).Ok?
    ensures var b := Desired(Refreshed(s, now).value.0, now);
            var over := |Unexpired(s.issuers, now)| > 2 || (|Unexpired(s.issuers, now)| == 2 && WillRenew(s, now));
            && (over <==> |b.intermediates| > MAX_BUNDLE_ISSUERS)
            && (over ==> !WellFormed(b, at))
  {
    RenewsExactly(s, now);
    hide WillRenew, Shape, RootsOk, IssuersOk, KeysOk, Listed, RenewedInPass, Unexpired, Refreshed, RootCerts, Entries,
         SortedSerials, Rooted;
    ListedAfterPass(s, clock, now);
  }

  // ---------- Automatic renewal alone ----------

  /** Anything but an operator's new intermediate. */
  predicate Automatic(e: Event) {
    !e.IntermediateSaved? && !e.PromotionSaved?
  }

  /** At most two intermediates, the second made no earlier than two thirds into the first. */
  predicate Spaced(issuers: seq<Issuer>) {
    |issuers| <= 2 && (|issuers| == 2 ==> RenewalDue(issuers[0].cert, issuers[1].created))
  }

  predicate FewListed(log: seq<Bundle>) {
    forall j | 0 <= j < |log| :: |log[j].body.intermediates| <= MAX_BUNDLE_ISSUERS
  }

  /** By the time the second is due the first has run out. */
  lemma SecondDue(a: Issuer, b: Issuer, s: Store, now: int)
    requires IssuerOk(a, s, now) && IssuerOk(b, s, now)
    requires RenewalDue(a.cert, b.created) && RenewalDue(b.cert, now)
    ensures a.cert.notAfter < now
  {
  }

  lemma FilterSpaced(issuers: seq<Issuer>, keep: Issuer -> bool)
    requires Spaced(issuers)
    ensures Spaced(Filter(issuers, keep))
  {
    if |issuers| == 2 {
      assert issuers == [issuers[0]] + [issuers[1]];
      FilterAppend([issuers[0]], issuers[1], keep);
      FilterAppend([], issuers[0], keep);
      assert [] + [issuers[0]] == [issuers[0]];
    } else if |issuers| == 1 {
      assert issuers == [] + [issuers[0]];
      FilterAppend([], issuers[0], keep);
    }
  }

  lemma RenewSpaced(s: Store, now: int)
    requires RootShape(s.roots) && s.roots != [] && IssuerShape(s.issuers)
    requires RootsOk(s, now) && IssuersOk(s, now) && Spaced(s.issuers)
    requires Renew(ActiveRoot(s.roots), s.issuers, s.unused, now).Renewed?
    ensures Spaced(LiveIssuers(Renew(ActiveRoot(s.roots), s.issuers, s.unused, now).issuers, now))
  {
    hide RootShape, RootsOk, Follows, Anchored, Filter;
    var r := Renew(ActiveRoot(s.roots), s.issuers, s.unused, now);
    var keep := (i: Issuer) => IssuerLive(i, now);
    if r.issuers == s.issuers {
      FilterSpaced(s.issuers, keep);
    } else if s.issuers == [] {
      FilterSpaced(r.issuers, keep);
    } else {
      var last := s.issuers[|s.issuers| - 1];
      var cert := NewIntermediate(ActiveRoot(s.roots).cert, s.unused, now).value;
      var was, made := last.(state := IssuerRetired), Issuer(cert, IssuerActive, now);
      if |s.issuers| == 1 {
        assert r.issuers == [was, made];
        FilterSpaced(r.issuers, keep);
      } else {
        assert r.issuers == [s.issuers[0]] + [was, made];
        assert IssuerOk(s.issuers[0], s, now) && IssuerOk(s.issuers[1], s, now);
        SecondDue(s.issuers[0], s.issuers[1], s, now);
        DropFirst(s.issuers[0], [was, made], keep);
        FilterSpaced([was, made], keep);
      }
    }
  }

  lemma {:induction false} DropFirst<T(!new)>(x: T, s: seq<T>, keep: T -> bool)
    requires !keep(x)
    ensures Filter([x] + s, keep) == Filter(s, keep)
  {
    if s == [] {
      assert [x] + s == [x];
    } else {
      var last := |s| - 1;
      assert ([x] + s)[..|s|] == [x] + s[..last];
      DropFirst(x, s[..last], keep);
    }
  }

  lemma RefreshedSpaced(s: Store, clock: int, now: int)
    requires StoreOk(s, clock) && clock <= now && Refreshed(s, now).Ok? && Spaced(s.issuers)
    ensures Spaced(Refreshed(s, now).value.0.issuers)
  {
    hide KeyShape, KeysOrdered, BundlesOrdered, DistinctSerials, RootsOk, IssuersOk, KeysOk, ManageKeys,
         LiveRevocations, LiveIssuers, Renew, Spaced;
    var rooted := WithRoot(s, now);
    WithRootOk(s, clock, now);
    RenewSpaced(rooted, now);
  }

  lemma ListedBound(issuers: seq<Issuer>)
    ensures |Listed(issuers)| <= |issuers|
  {
  }

  lemma FinishedFew(w: World, t: Store, blocked: bool, now: int)
    requires RootShape(t.roots) && t.roots != [] && KeyShape(t.keys) && t.keys != [] && t.issuers != []
    requires FewListed(w.log) && Spaced(t.issuers)
    ensures FewListed(After(w, Finish(t, blocked, now), now).log)
    ensures Finish(t, blocked, now).Passed? && Finish(t, blocked, now).store.issuers == t.issuers
  {
    hide RootCerts, Listed, SortedSerials, LastBundles, MakeView, SameTrust, RootShape, KeyShape, ActiveKey, Entries;
    ListedBound(t.issuers);
  }

  lemma NextKeepsFew(w: World, e: Event)
    requires Inv(w) && InOrder(w, e) && Automatic(e) && Spaced(w.store.issuers) && FewListed(w.log)
    ensures Inv(Next(w, e)) && Spaced(Next(w, e).store.issuers) && FewListed(Next(w, e).log)
  {
    hide RootsOk, IssuersOk, KeysOk, LogOk, LinkOk, FewListed, Spaced, Refreshed, Finish, Listed, IssuerShape,
         KeyShape, Filter;
    NextKeepsInv(w, e);
    if e.PassRun? && Refreshed(w.store, e.now).Ok? {
      RefreshedOk(w.store, w.clock, e.now);
      RefreshedSpaced(w.store, w.clock, e.now);
      var (t, blocked) := Refreshed(w.store, e.now).value;
      FinishedFew(w, t, blocked, e.now);
    } else if e.RetirementSaved? && InPhase(w, PhasePromoted) && SaveRetirement(w.store).Ok? {
      FilterSpaced(w.store.issuers, (i: Issuer) => !SignedBy(i.cert, w.store.roots[0].cert));
    }
  }

  lemma {:induction false} RunKeepsFew(w: World, events: seq<Event>)
    requires Inv(w) && Ordered(w, events) && (forall e | e in events :: Automatic(e))
    requires Spaced(w.store.issuers) && FewListed(w.log)
    ensures FewListed(Run(w, events).log)
    decreases |events|
  {
    hide Next, InOrder, RootsOk, IssuersOk, KeysOk, LogOk, LinkOk, FewListed, Spaced;
    if events != [] {
      NextKeepsFew(w, events[0]);
      RunKeepsFew(Next(w, events[0]), events[1..]);
    }
  }

  /** Under automatic renewal, for any schedule of passes, no bundle lists more than two. */
  lemma AutomaticRunsListTwo(clock: int, events: seq<Event>)
    requires (StartInv(clock); Ordered(Start(clock), events))
    requires forall e | e in events :: Automatic(e)
    ensures FewListed((StartInv(clock); Run(Start(clock), events)).log)
  {
    StartInv(clock);
    RunKeepsFew(Start(clock), events);
  }

  // ---------- Operator steps ----------

  lemma ListedRetired(issuers: seq<Issuer>, made: Issuer)
    requires made.state == IssuerActive
    ensures |Listed(Retired(issuers) + [made])| == |Listed(issuers)| + 1
  {
    var listed := (i: Issuer) => i.state != IssuerRevoked;
    FilterAppend(Retired(issuers), made, listed);
    FilterCount(Retired(issuers), issuers, listed, listed);
  }

  lemma ListedRevoked(issuers: seq<Issuer>, made: Issuer)
    requires made.state == IssuerActive
    ensures |Listed(AllRevoked(issuers) + [made])| == 1
  {
    var listed := (i: Issuer) => i.state != IssuerRevoked;
    var gone := AllRevoked(issuers);
    FilterAppend(gone, made, listed);
    FilterNone(gone, listed);
  }

  /** A rotation or a promotion that succeeds leaves at most two listed. */
  lemma OperatorStepsLeaveTwo(s: Store, brought: Option<nat>, revokePrevious: bool, now: int)
    requires Shape(s)
    ensures var r := SaveIntermediate(s, brought, revokePrevious, now); r.Ok? ==> |Listed(r.value.issuers)| <= MAX_BUNDLE_ISSUERS
    ensures var r := SavePromotion(s, now); r.Ok? ==> |Listed(r.value.issuers)| <= MAX_BUNDLE_ISSUERS
  {
    hide Listed;
    var r := SaveIntermediate(s, brought, revokePrevious, now);
    if r.Ok? {
      var made := Issuer(NewIntermediate(ActiveRoot(s.roots).cert, s.unused, now).value, IssuerActive, now);
      ListedRetired(s.issuers, made);
      ListedRevoked(s.issuers, made);
    }
    var p := SavePromotion(s, now);
    if p.Ok? {
      ListedRetired(s.issuers, Issuer(NewIntermediate(s.roots[1].cert, s.unused, now).value, IssuerActive, now));
    }
  }
}
