/** Two whole runs, from an empty store, whose last bundle no node takes. */
module PkiWitness {
  import opened Wrappers
  import opened Seqs
  import opened PkiTypes
  import opened PkiCa
  import opened PkiBundle
  import opened PkiPass
  import opened PkiWorld
  import opened PkiInvariant
  import opened PkiRuns
  import opened PkiRevocation
  import opened PkiTracking
  import opened PkiCaps

  // ---------- What a first pass leaves ----------

  const FIRST_ROOT := Root(Cert(0, 0, 0, true, -CLOCK_SKEW, ROOT_VALIDITY), RootActive, true)
  const FIRST_ISSUER := Issuer(Cert(1, 1, 0, true, -CLOCK_SKEW, INTERMEDIATE_VALIDITY), IssuerActive, 0)
  const SECOND_ISSUER :=
    Issuer(Cert(3, 3, 0, true, DAY - CLOCK_SKEW, DAY + INTERMEDIATE_VALIDITY), IssuerActive, DAY)

  const FIRST_KEY := NewKey(2, KeyActive, 0)

  lemma FirstRefresh()
    ensures Shape(EMPTY_STORE) && Refreshed(EMPTY_STORE, 0).Ok?
    ensures var t := Refreshed(EMPTY_STORE, 0).value.0;
            && t.roots == [FIRST_ROOT] && t.issuers == [FIRST_ISSUER] && t.keys == [FIRST_KEY]
            && t.unused == 3 && t.revocations == []
  {
    var rooted := WithRoot(EMPTY_STORE, 0);
    assert rooted.roots == [FIRST_ROOT] && rooted.unused == 1;
    assert Renew(FIRST_ROOT, [], 1, 0) == Renewed([FIRST_ISSUER], 2, false);
    assert LiveIssuers([FIRST_ISSUER], 0) == [FIRST_ISSUER] by {
      FilterAppend([], FIRST_ISSUER, (i: Issuer) => IssuerLive(i, 0));
      assert [] + [FIRST_ISSUER] == [FIRST_ISSUER];
    }
  }

  /** A first pass leaves one root and one intermediate. */
  lemma FirstPass()
    ensures Inv(Start(0)) && Inv(AfterPass(Start(0), 0)) && AfterPass(Start(0), 0).clock == 0
    ensures var s := AfterPass(Start(0), 0).store;
            && s.roots == [FIRST_ROOT] && s.issuers == [FIRST_ISSUER] && s.keys == [FIRST_KEY]
            && s.unused == 3 && s.revocations == []
  {
    StartInv(0);
    PassKeepsInv(Start(0), 0);
    FirstRefresh();
    hide Refreshed, Finish, StoreOk, LogOk, LinkOk;
    var (t, blocked) := Refreshed(EMPTY_STORE, 0).value;
    FinishKeepsRest(t, blocked, 0);
  }

  // ---------- A third intermediate ----------

  lemma RenewsAgain(s: Store)
    requires Shape(s) && s.roots == [FIRST_ROOT]
    requires s.issuers == [FIRST_ISSUER.(state := IssuerRetired), SECOND_ISSUER]
    ensures RenewedInPass(s, 488 * DAY) && |Unexpired(s.issuers, 488 * DAY)| == 2 && Refreshed(s, 488 * DAY).Ok?
  {
    hide KeyShape, KeysOrdered, BundlesOrdered, DistinctSerials, ManageKeys;
    var keep := (i: Issuer) => i.state != IssuerRevoked && 488 * DAY <= i.cert.notAfter;
    var first := FIRST_ISSUER.(state := IssuerRetired);
    assert s.issuers == ([] + [first]) + [SECOND_ISSUER];
    FilterAppend([] + [first], SECOND_ISSUER, keep);
    FilterAppend([], first, keep);
    var r := Renew(FIRST_ROOT, s.issuers, s.unused, 488 * DAY);
    assert r.Renewed? && |r.issuers| == 3;
  }

  /** A planned rotation a day in. */
  lemma RotatedStore(s: Store)
    requires Shape(s) && s.roots == [FIRST_ROOT] && s.issuers == [FIRST_ISSUER] && s.unused == 3
    ensures var r := SaveIntermediate(s, None, false, DAY);
            r.Ok? && r.value.roots == [FIRST_ROOT] && r.value.issuers == [FIRST_ISSUER.(state := IssuerRetired), SECOND_ISSUER]
  {
    hide KeyShape, KeysOrdered, BundlesOrdered, DistinctSerials, Listed;
    ListedRetired([], FIRST_ISSUER);
    assert Retired([]) + [FIRST_ISSUER] == [FIRST_ISSUER];
    assert |Listed([])| == 0 by { ListedBound([]); }
  }

  /** A pass whose objects list more than a bundle may leaves a latest bundle no node takes. */
  lemma OverfullRefused(w: World, now: int, at: int)
    requires Inv(w) && w.clock <= now && Refreshed(w.store, now).Ok?
    requires var t := Refreshed(w.store, now).value.0;
             |Listed(t.issuers)| > MAX_BUNDLE_ISSUERS || |t.revocations| > MAX_REVOKED_SERIALS
    ensures var w' := Next(w, PassRun(now));
            Inv(w') && w'.log != [] && !WellFormed(Latest(w').body, at)
  {
    hide RootsOk, IssuersOk, KeysOk, LogOk, KeyShape, RootShape, KeysOrdered, BundlesOrdered, DistinctSerials, Refreshed, Finish,
         Listed, SortedSerials, LastBundles, Entries;
    NextKeepsInv(w, PassRun(now));
    RefreshedOk(w.store, w.clock, now);
    var (t, blocked) := Refreshed(w.store, now).value;
    FinishedSays(t, blocked, now);
    PublishedSerials(t.revocations);
    var w' := Next(w, PassRun(now));
    assert w'.view.Some? && w'.view.value.bundle == Latest(w');
  }

  /**
  A first pass, a planned rotation a day later, and automatic renewal while the
  first intermediate has not run out: the bundle that lists all three is refused by
  every node, at any time.
  */
  lemma RotationThenRenewal(at: int) returns (events: seq<Event>)
    ensures (StartInv(0); Ordered(Start(0), events))
    ensures var end := (StartInv(0); Run(Start(0), events)); end.log != [] && !WellFormed(Latest(end).body, at)
  {
    hide Inv, Next, WellFormed, Refreshed, Listed, Shape, StoreOk;
    StartInv(0);
    var first, rotate, renew := PassRun(0), IntermediateSaved(None, false, DAY), PassRun(488 * DAY);
    RunOne(Start(0), first);
    var w1 := FirstWorld();
    RunOne(w1, rotate);
    var w2 := RotatedWorld(w1);
    RenewedWorld(w2, at);
    RunOne(w2, renew);
    RunsJoin(Start(0), [first], [rotate]);
    RunsJoin(Start(0), [first] + [rotate], [renew]);
    events := [first] + [rotate] + [renew];
  }

  lemma FirstWorld() returns (w: World)
    ensures Inv(Start(0)) && w == Next(Start(0), PassRun(0)) && Inv(w) && w.clock == 0
    ensures w.store.roots == [FIRST_ROOT] && w.store.issuers == [FIRST_ISSUER] && w.store.unused == 3 && w.store.revocations == []
  {
    FirstPass();
    w := AfterPass(Start(0), 0);
  }

  lemma RotatedWorld(w: World) returns (w': World)
    requires Inv(w) && w.clock == 0
    requires w.store.roots == [FIRST_ROOT] && w.store.issuers == [FIRST_ISSUER] && w.store.unused == 3
    ensures w' == Next(w, IntermediateSaved(None, false, DAY)) && Inv(w') && w'.clock == DAY
    ensures w'.store.roots == [FIRST_ROOT] && w'.store.issuers == [FIRST_ISSUER.(state := IssuerRetired), SECOND_ISSUER]
  {
    hide RootsOk, IssuersOk, KeysOk, LogOk, LinkOk, KeyShape, KeysOrdered, BundlesOrdered, DistinctSerials, SaveIntermediate;
    RotatedStore(w.store);
    NextKeepsInv(w, IntermediateSaved(None, false, DAY));
    w' := Next(w, IntermediateSaved(None, false, DAY));
  }

  lemma RenewedWorld(w: World, at: int)
    requires Inv(w) && w.clock == DAY && w.store.roots == [FIRST_ROOT]
    requires w.store.issuers == [FIRST_ISSUER.(state := IssuerRetired), SECOND_ISSUER]
    ensures var w' := Next(w, PassRun(488 * DAY));
            Inv(w') && w'.log != [] && !WellFormed(Latest(w').body, at)
  {
    hide RootsOk, IssuersOk, KeysOk, LogOk, LinkOk, KeyShape, KeysOrdered, BundlesOrdered, DistinctSerials, Next, RenewedInPass,
         Unexpired, Refreshed, Listed;
    RenewsAgain(w.store);
    ListedAfterPass(w.store, w.clock, 488 * DAY);
    OverfullRefused(w, 488 * DAY, at);
  }

  // ---------- A full list of revoked serials ----------

  const LATER := 100 * DAY

  /** The first root and intermediate, and some revoked leaves. */
  predicate Filling(w: World, n: nat) {
    && Inv(w) && w.clock == 0
    && w.store.roots == [FIRST_ROOT] && w.store.issuers == [FIRST_ISSUER] && w.store.unused >= 3
    && |w.store.revocations| == n
    && forall i | 0 <= i < n :: 2 <= w.store.revocations[i].serial < w.store.unused && w.store.revocations[i].notAfter == LATER
  }

  /** One more leaf is issued and revoked. */
  lemma FillOne(w: World, n: nat)
    requires Filling(w, n) && n < MAX_REVOKED_SERIALS
    ensures var issued := Next(w, LeafIssued);
            var revoke := RevocationSaved(w.store.unused, Some(LATER), 0);
            && Inv(issued) && InOrder(issued, revoke)
            && Filling(Next(issued, revoke), n + 1)
  {
    hide RootsOk, IssuersOk, KeysOk, LogOk, LinkOk, KeyShape, KeysOrdered, BundlesOrdered, DistinctSerials;
    var revoke := RevocationSaved(w.store.unused, Some(LATER), 0);
    NextKeepsInv(w, LeafIssued);
    var issued := Next(w, LeafIssued);
    NextKeepsInv(issued, revoke);
  }

  lemma {:induction false} Fill(w: World, n: nat) returns (events: seq<Event>)
    requires Filling(w, n) && n <= MAX_REVOKED_SERIALS
    ensures Ordered(w, events) && Filling(Run(w, events), MAX_REVOKED_SERIALS)
    decreases MAX_REVOKED_SERIALS - n
  {
    if n == MAX_REVOKED_SERIALS {
      events := [];
    } else {
      var revoke := RevocationSaved(w.store.unused, Some(LATER), 0);
      FillOne(w, n);
      var issued := Next(w, LeafIssued);
      var filled := Next(issued, revoke);
      var rest := Fill(filled, n + 1);
      OneMore(w, revoke, rest);
      events := [LeafIssued] + [revoke] + rest;
    }
  }

  lemma OneMore(w: World, revoke: Event, rest: seq<Event>)
    requires Inv(w) && Inv(Next(w, LeafIssued)) && InOrder(Next(w, LeafIssued), revoke)
    requires Inv(Next(Next(w, LeafIssued), revoke)) && Ordered(Next(Next(w, LeafIssued), revoke), rest)
    ensures Ordered(w, [LeafIssued] + [revoke] + rest)
    ensures Run(w, [LeafIssued] + [revoke] + rest) == Run(Next(Next(w, LeafIssued), revoke), rest)
  {
    hide Next, RootsOk, IssuersOk, KeysOk, LogOk, LinkOk;
    assert InOrder(w, LeafIssued);
    RunOne(w, LeafIssued);
    RunOne(Next(w, LeafIssued), revoke);
    RunsJoin(w, [LeafIssued], [revoke]);
    RunsJoin(w, [LeafIssued] + [revoke], rest);
  }

  /** A revoking rotation goes through although the list is full. */
  lemma RevokedAnyway(w: World) returns (w': World)
    requires Filling(w, MAX_REVOKED_SERIALS)
    ensures w' == Next(w, IntermediateSaved(None, true, 0)) && Inv(w') && w'.clock == 0
    ensures |w'.store.revocations| == MAX_REVOKED_SERIALS + 1
    ensures forall i | 0 <= i < |w'.store.revocations| :: RevocationLive(w'.store.revocations[i], 0)
    ensures Refreshed(w'.store, 0).Ok?
  {
    hide RootsOk, IssuersOk, KeysOk, LogOk, LinkOk, KeyShape, KeysOrdered, BundlesOrdered, DistinctSerials, Refreshed, RevokeListed;
    NextKeepsInv(w, IntermediateSaved(None, true, 0));
    w' := Next(w, IntermediateSaved(None, true, 0));
    FullAndOne(w.store);
    NotDueYet(w'.store, w.store.unused);
  }

  lemma FullAndOne(s: Store)
    requires s.issuers == [FIRST_ISSUER]
    requires forall i | 0 <= i < |s.revocations| :: 2 <= s.revocations[i].serial && s.revocations[i].notAfter == LATER
    ensures var after := RevokeListed(s.issuers, s.revocations);
            |after| == |s.revocations| + 1 && forall i | 0 <= i < |after| :: RevocationLive(after[i], 0)
  {
    var made := Revocation(1, INTERMEDIATE_VALIDITY);
    assert s.issuers[..0] == [] && RevokeListed(s.issuers[..0], s.revocations) == s.revocations;
    assert RevokeListed(s.issuers, s.revocations) == PutRevocation(s.revocations, made);
    PutCounts(s.revocations, made);
    PutLive(s.revocations, made);
  }

  lemma {:induction false} PutLive(revocations: seq<Revocation>, r: Revocation)
    requires RevocationLive(r, 0) && forall x | x in revocations :: RevocationLive(x, 0)
    ensures forall x | x in PutRevocation(revocations, r) :: RevocationLive(x, 0)
    decreases |revocations|
  {
    if revocations != [] {
      PutLive(revocations[1..], r);
    }
  }

  lemma NotDueYet(s: Store, number: nat)
    requires Shape(s) && s.roots == [FIRST_ROOT] && s.issuers != []
    requires s.issuers[|s.issuers| - 1].cert == Cert(number, number, 0, true, -CLOCK_SKEW, INTERMEDIATE_VALIDITY)
    ensures Refreshed(s, 0).Ok?
  {
    hide KeyShape, KeysOrdered, BundlesOrdered, DistinctSerials, ManageKeys, LiveRevocations;
    assert !RenewalDue(s.issuers[|s.issuers| - 1].cert, 0);
  }

  /** All its entries are still live, so the pass publishes one too many. */
  lemma PublishesTooMany(w: World, at: int)
    requires Inv(w) && w.clock == 0 && |w.store.revocations| == MAX_REVOKED_SERIALS + 1 && Refreshed(w.store, 0).Ok?
    requires forall i | 0 <= i < |w.store.revocations| :: RevocationLive(w.store.revocations[i], 0)
    ensures var w' := Next(w, PassRun(0));
            Inv(w') && w'.log != [] && !WellFormed(Latest(w').body, at)
  {
    hide RootsOk, IssuersOk, KeysOk, LogOk, LinkOk, KeyShape, KeysOrdered, BundlesOrdered, DistinctSerials, Refreshed, Next;
    var unused := RefreshedParts(w.store, w.clock, 0);
    FilterAll(w.store.revocations, (r: Revocation) => RevocationLive(r, 0));
    OverfullRefused(w, 0, at);
  }

  /**
  A first pass, 1024 leaves issued and revoked, a revoking rotation and a pass: its
  bundle lists 1025 serials and is refused by every node, at any time.
  */
  lemma FullListThenRotation(at: int) returns (events: seq<Event>)
    ensures (StartInv(0); Ordered(Start(0), events))
    ensures var end := (StartInv(0); Run(Start(0), events)); end.log != [] && !WellFormed(Latest(end).body, at)
  {
    hide Next, WellFormed, Refreshed, RootsOk, IssuersOk, KeysOk, LogOk, LinkOk, Shape;
    StartInv(0);
    var w1 := FirstWorld();
    RunOne(Start(0), PassRun(0));
    var fill := Fill(w1, 0);
    var full := Run(w1, fill);
    RunsJoin(Start(0), [PassRun(0)], fill);
    var rotate := IntermediateSaved(None, true, 0);
    var w2 := RevokedAnyway(full);
    RunOne(full, rotate);
    RunsJoin(Start(0), [PassRun(0)] + fill, [rotate]);
    PublishesTooMany(w2, at);
    RunOne(w2, PassRun(0));
    RunsJoin(Start(0), [PassRun(0)] + fill + [rotate], [PassRun(0)]);
    events := [PassRun(0)] + fill + [rotate] + [PassRun(0)];
  }
}
