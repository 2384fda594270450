/**
The arithmetic of the 60, 7, 14 and 90 day rules. With passes at most `gap`
apart, 23 days or less, a bundle's signing key outlives its issue by what is
left of those 23 days.
*/
module PkiTiming {
  import opened Wrappers
  import opened PkiTypes
  import opened PkiBundle
  import opened PkiPass
  import opened PkiWorld
  import opened PkiInvariant
  import opened PkiHistory
  import opened PkiRuns

  const MAX_PASS_GAP := SIGNING_KEY_VALIDITY - SIGNING_ROTATE_AFTER - SIGNING_PROMOTE_AFTER

  /** A pass that succeeds follows the last one that did by no more than the gap. */
  predicate OnTime(w: World, e: Event, gap: int)
    requires Shape(w.store)
  {
    e.PassRun? && Pass(w.store, e.now).Passed? && w.lastPass.Some? ==> e.now <= w.lastPass.value + gap
  }

  ghost predicate Punctual(w: World, events: seq<Event>, gap: int)
    requires Inv(w) && Ordered(w, events)
    decreases |events|
  {
    events == [] ||
    (&& OnTime(w, events[0], gap)
     && (NextKeepsInv(w, events[0]); Punctual(Next(w, events[0]), events[1..], gap)))
  }

  /** What the last pass says about the age of the stored keys. */
  predicate KeyTimes(keys: seq<SigningKey>, last: int, gap: int)
    requires KeyShape(keys) && keys != []
  {
    var newest := keys[|keys| - 1];
    if newest.state == KeyActive then last < newest.created + SIGNING_ROTATE_AFTER
    else
      && last < newest.created + SIGNING_PROMOTE_AFTER
      && newest.created < keys[0].created + SIGNING_ROTATE_AFTER + gap
  }

  predicate Timely(w: World, gap: int)
    requires KeyShape(w.store.keys)
  {
    w.store.keys != [] ==> w.lastPass.Some? && w.lastPass.value <= w.clock && KeyTimes(w.store.keys, w.lastPass.value, gap)
  }

  /** The signing key of a bundle is good for a while after the bundle was issued. */
  ghost predicate FreshlySigned(b: Bundle, margin: int) {
    exists e :: SignedWith(b, e) && b.body.issuedAt + margin < e.notAfter
  }

  ghost predicate FreshLog(log: seq<Bundle>, margin: int) {
    forall j | 0 <= j < |log| :: FreshlySigned(log[j], margin)
  }

  /** Passes that are close enough promote a successor well before its predecessor ends. */
  lemma ManagedInTime(keys: seq<SigningKey>, unused: nat, last: int, now: int, gap: int)
    requires KeyShape(keys) && 0 <= gap <= MAX_PASS_GAP
    requires keys != [] ==> KeyTimes(keys, last, gap) && last <= now <= last + gap
    ensures var after := ManageKeys(keys, unused, now).keys;
            && after != [] && KeyShape(after) && KeyTimes(after, now, gap)
            && now + MAX_PASS_GAP - gap < ActiveKey(after).created + SIGNING_KEY_VALIDITY
  {
  }

  lemma FinishedInTime(w: World, t: Store, blocked: bool, now: int, margin: int)
    requires RootShape(t.roots) && t.roots != [] && KeyShape(t.keys) && t.keys != [] && t.issuers != []
    requires FreshLog(w.log, margin)
    requires now + margin < ActiveKey(t.keys).notAfter
    ensures FreshLog(After(w, Finish(t, blocked, now), now).log, margin)
  {
    hide RootCerts, Listed, SortedSerials, LastBundles, MakeView, SameTrust, RootShape;
    var pass := Finish(t, blocked, now);
    if pass.published.Some? {
      SignerSigns(t.keys, pass.published.value.body);
      assert FreshlySigned(pass.published.value, margin);
    }
  }

  lemma PassInTime(w: World, now: int, gap: int)
    requires Inv(w) && w.clock <= now && 0 <= gap <= MAX_PASS_GAP
    requires Timely(w, gap) && FreshLog(w.log, MAX_PASS_GAP - gap) && OnTime(w, PassRun(now), gap)
    ensures Inv(AfterPass(w, now))
    ensures Timely(AfterPass(w, now), gap) && FreshLog(AfterPass(w, now).log, MAX_PASS_GAP - gap)
  {
    hide RootsOk, IssuersOk, LogOk, LinkOk, ManageKeys, Desired, Refreshed, SameTrust, MakeView, KeyTimes, FreshLog,
         RootShape, ActiveKey, Finish;
    PassKeepsInv(w, now);
    if Refreshed(w.store, now).Ok? {
      var unused := RefreshedParts(w.store, w.clock, now);
      var (t, blocked) := Refreshed(w.store, now).value;
      RefreshedOk(w.store, w.clock, now);
      FinishKeepsRest(t, blocked, now);
      ManagedInTime(w.store.keys, unused, if w.lastPass.Some? then w.lastPass.value else now, now, gap);
      ActiveKeyStored(t.keys);
      FinishedInTime(w, t, blocked, now, MAX_PASS_GAP - gap);
    }
  }

  lemma ActiveKeyStored(keys: seq<SigningKey>)
    requires KeyShape(keys) && keys != []
    ensures exists k :: 0 <= k < |keys| && keys[k] == ActiveKey(keys)
  {
    var k := if keys[|keys| - 1].state == KeyActive then |keys| - 1 else 0;
    assert keys[k] == ActiveKey(keys);
  }

  lemma NextInTime(w: World, e: Event, gap: int)
    requires Inv(w) && InOrder(w, e) && 0 <= gap <= MAX_PASS_GAP
    requires Timely(w, gap) && FreshLog(w.log, MAX_PASS_GAP - gap) && OnTime(w, e, gap)
    ensures Inv(Next(w, e)) && Timely(Next(w, e), gap) && FreshLog(Next(w, e).log, MAX_PASS_GAP - gap)
  {
    hide RootsOk, IssuersOk, KeysOk, LogOk, LinkOk, FreshLog, KeyTimes, Pass, Listed, RevokeListed;
    NextKeepsInv(w, e);
    if e.PassRun? {
      PassInTime(w, e.now, gap);
    }
  }

  lemma {:induction false} RunInTime(w: World, events: seq<Event>, gap: int)
    requires Inv(w) && Ordered(w, events) && Punctual(w, events, gap) && 0 <= gap <= MAX_PASS_GAP
    requires Timely(w, gap) && FreshLog(w.log, MAX_PASS_GAP - gap)
    ensures FreshLog(Run(w, events).log, MAX_PASS_GAP - gap)
    decreases |events|
  {
    hide Next, InOrder, RootsOk, IssuersOk, KeysOk, LogOk, LinkOk, FreshLog, OnTime, KeyTimes;
    if events != [] {
      NextInTime(w, events[0], gap);
      RunInTime(Next(w, events[0]), events[1..], gap);
    }
  }

  /**
  In every run whose passes are at most `gap` apart, a node that holds a bundle
  takes the next one when it is issued and for the rest of the 23 days after,
  if the bundle fits and its certificates last that long.
  */
  lemma PunctualRunsAreAdoptable(clock: int, events: seq<Event>, gap: int, j: nat, at: int)
    requires 0 <= gap <= MAX_PASS_GAP
    requires (StartInv(clock); Ordered(Start(clock), events) && Punctual(Start(clock), events, gap))
    requires (StartInv(clock); 1 <= j < |Run(Start(clock), events).log|)
    requires var b := (StartInv(clock); Run(Start(clock), events)).log[j].body;
             && b.issuedAt <= at <= b.issuedAt + MAX_PASS_GAP - gap
             && |b.intermediates| <= MAX_BUNDLE_ISSUERS && |b.revoked| <= MAX_REVOKED_SERIALS
             && (forall i | 0 <= i < |b.roots| :: at <= b.roots[i].notAfter)
             && (forall i | 0 <= i < |b.intermediates| :: at <= b.intermediates[i].notAfter)
    ensures var w := (StartInv(clock); Run(Start(clock), events)); Adoptable(w.log[j], w.log[j - 1], at)
  {
    hide Adoptable, Inv, Punctual, SignedWith;
    StartInv(clock);
    RunInTime(Start(clock), events, gap);
    var w := Run(Start(clock), events);
    assert RunsTo(clock, events, w);
    NextBundleAdoptable(w, j, at);
    assert FreshlySigned(w.log[j], MAX_PASS_GAP - gap);
  }

  /** When it is issued, a bundle's own certificates last, save perhaps the root a rotation retired. */
  lemma IssuedUnexpired(w: World, j: nat)
    requires Reachable(w) && j < |w.log|
    ensures w.log[j].body.roots != [] && w.log[j].body.issuedAt <= w.log[j].body.roots[0].notAfter
    ensures forall i | 0 <= i < |w.log[j].body.intermediates| ::
              w.log[j].body.issuedAt <= w.log[j].body.intermediates[i].notAfter
  {
    ReachableOk(w);
    hide StoreOk, LogOk, LinkOk;
    assert Chained(w.log, j);
  }
}
