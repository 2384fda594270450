/**
The manager as it runs: it loops over the stored objects, changes them and
replaces its view. Each method is proved to do what the pass and the operator
steps say.
*/
module PkiManager {
  import opened Wrappers
  import opened Seqs
  import opened PkiTypes
  import opened PkiCa
  import opened PkiPass
  import opened PkiWorld
  import opened PkiInvariant

  // ---------- The parts of a pass ----------

  method FindActiveRoot(roots: seq<Root>) returns (active: Option<nat>)
    requires RootShape(roots)
    ensures active == if roots == [] then None else Some(ActiveRootIndex(roots))
  {
    active := None;
    for i := 0 to |roots|
      invariant active.None? ==> forall k | 0 <= k < i :: roots[k].state != RootActive
      invariant active.Some? ==> active.value < i && roots[active.value].state == RootActive
    {
      match roots[i].state
      case RootActive => active := Some(i);
      case RootNext =>
      case RootRetired =>
    }
  }

  method SweepRevocations(revocations: seq<Revocation>, now: int) returns (kept: seq<Revocation>)
    ensures kept == LiveRevocations(revocations, now)
  {
    kept := [];
    for i := 0 to |revocations|
      invariant kept == LiveRevocations(revocations[..i], now)
    {
      assert revocations[..i + 1] == revocations[..i] + [revocations[i]];
      FilterAppend(revocations[..i], revocations[i], (r: Revocation) => RevocationLive(r, now));
      if now <= revocations[i].notAfter + REVOCATION_KEEP {
        kept := kept + [revocations[i]];
      }
    }
    assert revocations[..|revocations|] == revocations;
  }

  /** The newest active intermediate. */
  method FindIssuer(issuers: seq<Issuer>) returns (newest: Option<nat>)
    ensures newest.None? <==> forall i | 0 <= i < |issuers| :: issuers[i].state != IssuerActive
    ensures newest.Some? ==> newest.value < |issuers| && issuers[newest.value].state == IssuerActive
    ensures newest.Some? ==> forall i | 0 <= i < |issuers| && issuers[i].state == IssuerActive ::
                               issuers[i].created <= issuers[newest.value].created
  {
    newest := None;
    for i := 0 to |issuers|
      invariant newest.None? <==> forall k | 0 <= k < i :: issuers[k].state != IssuerActive
      invariant newest.Some? ==> newest.value < i && issuers[newest.value].state == IssuerActive
      invariant newest.Some? ==> forall k | 0 <= k < i && issuers[k].state == IssuerActive ::
                                   issuers[k].created <= issuers[newest.value].created
    {
      if issuers[i].state == IssuerActive && (newest.None? || issuers[i].created > issuers[newest.value].created) {
        newest := Some(i);
      }
    }
  }

  method RenewIssuer(root: Root, issuers: seq<Issuer>, unused: nat, now: int) returns (r: Renewal)
    requires IssuerShape(issuers)
    ensures r == Renew(root, issuers, unused, now)
  {
    var newest := FindIssuer(issuers);
    assert issuers != [] ==> issuers[|issuers| - 1].state == IssuerActive;
    if newest.None? || RenewalDue(issuers[newest.value].cert, now) {
      if !root.keyStored {
        if newest.None? || now >= issuers[newest.value].cert.notAfter {
          return Refused(RootUnavailable);
        }
        return Renewed(issuers, unused, true);
      }
      var created := NewIntermediate(root.cert, unused, now);
      if created.Err? {
        return Refused(created.error);
      }
      var changed := issuers;
      if newest.Some? {
        changed := changed[newest.value := changed[newest.value].(state := IssuerRetired)];
      }
      return Renewed(changed + [Issuer(created.value, IssuerActive, now)], unused + 1, false);
    }
    return Renewed(issuers, unused, false);
  }

  method SweepIssuers(issuers: seq<Issuer>, now: int) returns (kept: seq<Issuer>)
    ensures kept == LiveIssuers(issuers, now)
  {
    kept := [];
    for i := 0 to |issuers|
      invariant kept == LiveIssuers(issuers[..i], now)
    {
      assert issuers[..i + 1] == issuers[..i] + [issuers[i]];
      FilterAppend(issuers[..i], issuers[i], (x: Issuer) => IssuerLive(x, now));
      if !((issuers[i].state == IssuerRetired || issuers[i].state == IssuerRevoked) && now > issuers[i].cert.notAfter) {
        kept := kept + [issuers[i]];
      }
    }
    assert issuers[..|issuers|] == issuers;
  }

  /** The keys in their three roles, as the loop over the stored objects finds them. */
  method SortKeys(keys: seq<SigningKey>)
    returns (active: Option<SigningKey>, pending: Option<SigningKey>, retiring: seq<SigningKey>)
    requires KeyShape(keys)
    ensures active == if keys == [] then None else Some(ActiveKey(keys))
    ensures pending == if keys != [] && keys[|keys| - 1].state == KeyPending then Some(keys[1]) else None
    ensures retiring == if |keys| == 2 && keys[0].state == KeyRetired then [keys[0]] else []
  {
    active, pending, retiring := None, None, [];
    for i := 0 to |keys|
      invariant active == if exists k :: 0 <= k < i && keys[k].state == KeyActive then Some(ActiveKey(keys)) else None
      invariant pending == if i == 2 && keys[1].state == KeyPending then Some(keys[1]) else None
      invariant retiring == if i > 0 && keys[0].state == KeyRetired then [keys[0]] else []
    {
      match keys[i].state
      case KeyActive => active := Some(keys[i]);
      case KeyPending => pending := Some(keys[i]);
      case KeyRetired => retiring := retiring + [keys[i]];
    }
    assert keys != [] ==> keys[0].state == KeyActive || keys[|keys| - 1].state == KeyActive;
  }

  method ManageSigningKeys(keys: seq<SigningKey>, unused: nat, now: int) returns (after: seq<SigningKey>, left: nat)
    requires KeyShape(keys)
    ensures KeyChange(after, left) == ManageKeys(keys, unused, now)
  {
    var active, pending, retiring := SortKeys(keys);
    left := unused;
    if active.None? {
      after := [NewKey(left, KeyActive, now)];
      left := left + 1;
      return;
    }
    var signing := active.value;
    if pending.Some? && now >= pending.value.created + SIGNING_PROMOTE_AFTER {
      after := [signing.(state := KeyRetired), pending.value.(state := KeyActive)];
      signing := after[1];
    } else if pending.Some? {
      after := [signing, pending.value];
    } else if now >= signing.created + SIGNING_ROTATE_AFTER {
      after := [signing, NewKey(left, KeyPending, now)];
      left := left + 1;
    } else {
      after := [signing];
    }
    var kept: seq<SigningKey> := [];
    for i := 0 to |retiring|
      invariant kept == if i == 1 && now < retiring[0].notAfter && now < signing.created + SIGNING_OVERLAP then retiring else []
    {
      var expired := now >= retiring[i].notAfter;
      var overlapOver := now >= signing.created + SIGNING_OVERLAP;
      if !expired && !overlapOver {
        kept := kept + [retiring[i]];
      }
    }
    after := kept + after;
  }

  method SortSerials(revocations: seq<Revocation>) returns (serials: seq<nat>)
    ensures serials == SortedSerials(revocations)
  {
    serials := [];
    for i := 0 to |revocations|
      invariant serials == SortedSerials(revocations[..i])
    {
      assert revocations[..i + 1][..i] == revocations[..i];
      serials := InsertSerial(serials, revocations[i].serial);
    }
    assert revocations[..|revocations|] == revocations;
  }

  method ListIssuers(issuers: seq<Issuer>) returns (certs: seq<Cert>)
    ensures certs == Listed(issuers)
  {
    certs := [];
    ghost var kept: seq<Issuer> := [];
    for i := 0 to |issuers|
      invariant kept == Unrevoked(issuers[..i])
      invariant |certs| == |kept| && forall k | 0 <= k < |kept| :: certs[k] == kept[k].cert
    {
      assert issuers[..i + 1] == issuers[..i] + [issuers[i]];
      FilterAppend(issuers[..i], issuers[i], (x: Issuer) => x.state != IssuerRevoked);
      if issuers[i].state != IssuerRevoked {
        certs := certs + [issuers[i].cert];
        kept := kept + [issuers[i]];
      }
    }
    assert issuers[..|issuers|] == issuers;
  }

  method PublishKeys(keys: seq<SigningKey>) returns (entries: seq<BundleKey>)
    ensures entries == Entries(keys)
  {
    entries := [];
    for i := 0 to |keys|
      invariant |entries| == i && forall k | 0 <= k < i :: entries[k] == Entry(keys[k])
    {
      entries := entries + [Entry(keys[i])];
    }
  }

  method FindLatest(bundles: seq<Bundle>) returns (latest: Option<nat>)
    requires BundlesOrdered(bundles)
    ensures latest == if bundles == [] then None else Some(|bundles| - 1)
  {
    latest := None;
    for i := 0 to |bundles|
      invariant latest == if i == 0 then None else Some(i - 1)
    {
      if latest.None? || bundles[i].body.version > bundles[latest.value].body.version {
        latest := Some(i);
      }
    }
  }

  method ComparesTrust(a: Body, b: Body) returns (same: bool)
    ensures same <==> SameTrust(a, b)
  {
    if |a.roots| != |b.roots| || |a.intermediates| != |b.intermediates| || |a.keys| != |b.keys| || |a.revoked| != |b.revoked| {
      return false;
    }
    for i := 0 to |a.revoked|
      invariant a.revoked[..i] == b.revoked[..i]
    {
      if a.revoked[i] != b.revoked[i] {
        return false;
      }
    }
    for i := 0 to |a.roots|
      invariant a.roots[..i] == b.roots[..i]
    {
      if a.roots[i] != b.roots[i] {
        return false;
      }
    }
    for i := 0 to |a.intermediates|
      invariant a.intermediates[..i] == b.intermediates[..i]
    {
      if a.intermediates[i] != b.intermediates[i] {
        return false;
      }
    }
    for i := 0 to |a.keys|
      invariant a.keys[..i] == b.keys[..i]
    {
      if a.keys[i] != b.keys[i] {
        return false;
      }
    }
    return true;
  }

  method TrimBundles(bundles: seq<Bundle>) returns (kept: seq<Bundle>)
    ensures kept == LastBundles(bundles)
  {
    kept := bundles;
    while |kept| > KEEP_BUNDLES
      invariant |kept| <= |bundles| && kept == bundles[|bundles| - |kept|..]
      invariant |kept| >= KEEP_BUNDLES || kept == bundles
    {
      kept := kept[1..];
    }
  }

  /** Everything a pass does before its bundle. */
  method Refresh(s: Store, now: int) returns (r: Result<(Store, bool), PkiError>)
    requires Shape(s)
    ensures r == Refreshed(s, now)
  {
    hide BundlesOrdered, DistinctSerials, KeysOrdered, LiveIssuers, LiveRevocations, ManageKeys, Renew;
    var rooted := s;
    var active := FindActiveRoot(rooted.roots);
    if active.None? {
      rooted := rooted.(roots := [Root(NewRoot(rooted.unused, now), RootActive, true)], unused := rooted.unused + 1);
      active := Some(0);
    }
    assert rooted == WithRoot(s, now) && rooted.roots[active.value] == ActiveRoot(rooted.roots);
    var revocations := SweepRevocations(rooted.revocations, now);
    var renewal := RenewIssuer(rooted.roots[active.value], rooted.issuers, rooted.unused, now);
    if renewal.Refused? {
      return Err(renewal.error);
    }
    var issuers := SweepIssuers(renewal.issuers, now);
    var keys, unused := ManageSigningKeys(rooted.keys, renewal.unused, now);
    return Ok((Store(rooted.roots, issuers, keys, revocations, rooted.bundles, unused), renewal.blocked));
  }

  // ---------- Operator steps, as loops over what was loaded ----------

  method CountListed(issuers: seq<Issuer>) returns (total: nat)
    ensures total == |Listed(issuers)|
  {
    total := 0;
    for i := 0 to |issuers|
      invariant total == |Unrevoked(issuers[..i])|
    {
      assert issuers[..i + 1] == issuers[..i] + [issuers[i]];
      FilterAppend(issuers[..i], issuers[i], (x: Issuer) => x.state != IssuerRevoked);
      if issuers[i].state != IssuerRevoked {
        total := total + 1;
      }
    }
    assert issuers[..|issuers|] == issuers;
  }

  method ReplaceIssuers(issuers: seq<Issuer>, revocations: seq<Revocation>, revokePrevious: bool)
    returns (older: seq<Issuer>, revoked: seq<Revocation>)
    ensures older == if revokePrevious then AllRevoked(issuers) else Retired(issuers)
    ensures revoked == if revokePrevious then RevokeListed(issuers, revocations) else revocations
  {
    older, revoked := [], revocations;
    for i := 0 to |issuers|
      invariant |older| == i
      invariant forall k | 0 <= k < i ::
                  older[k] == if revokePrevious then AllRevoked(issuers)[k] else Retired(issuers)[k]
      invariant revoked == if revokePrevious then RevokeListed(issuers[..i], revocations) else revocations
    {
      assert issuers[..i + 1][..i] == issuers[..i];
      var entry := issuers[i];
      if entry.state == IssuerRevoked {
      } else if revokePrevious {
        entry := entry.(state := IssuerRevoked);
        revoked := PutRevocation(revoked, Revocation(entry.cert.serial, entry.cert.notAfter));
      } else if entry.state == IssuerActive {
        entry := entry.(state := IssuerRetired);
      }
      older := older + [entry];
    }
    assert issuers[..|issuers|] == issuers;
  }

  method RemoveUnder(issuers: seq<Issuer>, root: Cert) returns (kept: seq<Issuer>)
    ensures kept == NotUnder(issuers, root)
  {
    kept := [];
    for i := 0 to |issuers|
      invariant kept == NotUnder(issuers[..i], root)
    {
      assert issuers[..i + 1] == issuers[..i] + [issuers[i]];
      FilterAppend(issuers[..i], issuers[i], (x: Issuer) => !SignedBy(x.cert, root));
      if !SignedBy(issuers[i].cert, root) {
        kept := kept + [issuers[i]];
      }
    }
    assert issuers[..|issuers|] == issuers;
  }

  datatype Verdict = Free | IsRoot | IsActiveIssuer | AlreadyRevoked

  /** Why a serial may not be revoked, or that nothing stands against it. */
  method JudgeSerial(s: Store, serial: nat) returns (v: Verdict)
    ensures v == IsRoot <==> exists i :: 0 <= i < |s.roots| && s.roots[i].cert.serial == serial
    ensures v == IsActiveIssuer ==>
              exists i :: 0 <= i < |s.issuers| && s.issuers[i].cert.serial == serial && s.issuers[i].state == IssuerActive
    ensures v in {AlreadyRevoked, Free} ==>
              forall i | 0 <= i < |s.issuers| && s.issuers[i].cert.serial == serial :: s.issuers[i].state != IssuerActive
    ensures v == AlreadyRevoked ==> exists i :: 0 <= i < |s.revocations| && s.revocations[i].serial == serial
    ensures v == Free ==> forall i | 0 <= i < |s.revocations| :: s.revocations[i].serial != serial
  {
    for i := 0 to |s.roots|
      invariant forall k | 0 <= k < i :: s.roots[k].cert.serial != serial
    {
      if s.roots[i].cert.serial == serial {
        return IsRoot;
      }
    }
    for i := 0 to |s.issuers|
      invariant forall k | 0 <= k < i && s.issuers[k].cert.serial == serial :: s.issuers[k].state != IssuerActive
    {
      if s.issuers[i].cert.serial == serial && s.issuers[i].state == IssuerActive {
        return IsActiveIssuer;
      }
    }
    for i := 0 to |s.revocations|
      invariant forall k | 0 <= k < i :: s.revocations[k].serial != serial
    {
      if s.revocations[i].serial == serial {
        return AlreadyRevoked;
      }
    }
    return Free;
  }

  // ---------- The manager ----------

  /** What a pass leaves of a store and a view, and what it answers. */
  ghost predicate PassLeaves(before: Store, seen: Option<View>, now: int, after: Store, view: Option<View>, err: Option<PkiError>)
    requires Shape(before)
  {
    match Pass(before, now)
    case PassRefused(error) => after == before && view == seen && err == Some(error)
    case Passed(store, made, blocked, _) =>
      after == store && view == Some(made) && err == if blocked then Some(RootUnavailable) else None
  }

  /** What a step that saves and then runs a pass leaves. */
  ghost predicate StepLeaves(before: Store, seen: Option<View>, saved: Result<Store, PkiError>, now: int,
                             after: Store, view: Option<View>, err: Option<PkiError>)
  {
    match saved
    case Err(error) => after == before && view == seen && err == Some(error)
    case Ok(store) => Shape(store) && PassLeaves(store, seen, now, after, view, err)
  }

  class Manager {
    var store: Store
    var view: Option<View>

    constructor ()
      ensures store == EMPTY_STORE && view == None
    {
      store, view := EMPTY_STORE, None;
    }

    /** One pass. A refused pass changes nothing; any other saves all its changes at once. */
    method Ensure(now: int) returns (err: Option<PkiError>)
      requires Shape(store)
      modifies this
      ensures PassLeaves(old(store), old(view), now, store, view, err)
    {
      hide RootShape, IssuerShape, KeyShape, BundlesOrdered, DistinctSerials, KeysOrdered, Refreshed, Finish;
      var refreshed := Refresh(store, now);
      if refreshed.Err? {
        return Some(refreshed.error);
      }
      var (t, blocked) := refreshed.value;
      Publish(t, blocked, now);
      if blocked {
        return Some(RootUnavailable);
      }
      return None;
    }

    /** The bundle is signed again only when what nodes trust has changed. */
    method Publish(t: Store, ghost blocked: bool, now: int)
      requires RootShape(t.roots) && t.roots != [] && KeyShape(t.keys) && t.keys != [] && t.issuers != []
      requires BundlesOrdered(t.bundles)
      modifies this
      ensures Finish(t, blocked, now).Passed? && Finish(t, blocked, now).blocked == blocked
      ensures store == Finish(t, blocked, now).store && view == Some(Finish(t, blocked, now).view)
    {
      hide Listed, SortedSerials, Entries, RootShape, KeyShape, BundlesOrdered;
      var certs := ListIssuers(t.issuers);
      var entries := PublishKeys(t.keys);
      var serials := SortSerials(t.revocations);
      var latest := FindLatest(t.bundles);
      var version := if latest.None? then 1 else t.bundles[latest.value].body.version + 1;
      var desired := Body(version, now, RootCerts(t.roots), certs, entries, serials);
      var same := false;
      if latest.Some? {
        same := ComparesTrust(t.bundles[latest.value].body, desired);
      }
      var saved := t;
      if !same {
        var kept := TrimBundles(t.bundles + [Sign(desired, ActiveKey(t.keys))]);
        saved := t.(bundles := kept);
      }
      store := saved;
      view := Some(MakeView(saved));
    }

    method Revoke(serial: nat, notAfter: Option<int>, now: int, later: int) returns (err: Option<PkiError>)
      requires Shape(store)
      modifies this
      ensures if SaveRevocation(old(store), serial, notAfter, now) == Ok(old(store)) then
                store == old(store) && view == old(view) && err == None
              else
                StepLeaves(old(store), old(view), SaveRevocation(old(store), serial, notAfter, now), later, store, view, err)
    {
      hide Pass, RootShape, IssuerShape, KeyShape, BundlesOrdered, KeysOrdered;
      if store.roots == [] {
        return Some(NoRootYet);
      }
      var v := JudgeSerial(store, serial);
      match v {
        case IsRoot => return Some(CannotRevokeRoot);
        case IsActiveIssuer => return Some(UseRotation);
        case AlreadyRevoked => return None;
        case Free =>
      }
      if |store.revocations| >= MAX_REVOKED_SERIALS {
        return Some(TooManyRevoked);
      }
      var end := if notAfter.Some? then notAfter.value else now + MAX_LEAF_VALIDITY;
      store := store.(revocations := store.revocations + [Revocation(serial, end)]);
      err := Ensure(later);
    }

    method RotateIntermediate(brought: Option<nat>, revokePrevious: bool, now: int, later: int) returns (err: Option<PkiError>)
      requires Shape(store)
      modifies this
      ensures StepLeaves(old(store), old(view), SaveIntermediate(old(store), brought, revokePrevious, now), later, store, view, err)
    {
      hide Pass, KeyShape, BundlesOrdered, KeysOrdered, Listed;
      var active := FindActiveRoot(store.roots);
      if active.None? {
        return Some(NoRootYet);
      }
      if !revokePrevious {
        var remaining := CountListed(store.issuers);
        if remaining + 1 > MAX_BUNDLE_ISSUERS {
          return Some(TooManyIssuers);
        }
      }
      var root := store.roots[active.value];
      if brought.Some? && brought.value != root.cert.key {
        return Some(WrongRootKey);
      }
      if brought.None? && !root.keyStored {
        return Some(RootUnavailable);
      }
      var created := NewIntermediate(root.cert, store.unused, now);
      if created.Err? {
        return Some(created.error);
      }
      var older, revoked := ReplaceIssuers(store.issuers, store.revocations, revokePrevious);
      RevokeListedDistinct(store.issuers, store.revocations);
      store := store.(issuers := older + [Issuer(created.value, IssuerActive, now)], revocations := revoked,
                      unused := store.unused + 1);
      err := Ensure(later);
    }

    method BeginRootRotation(now: int, later: int) returns (err: Option<PkiError>)
      requires Shape(store)
      modifies this
      ensures StepLeaves(old(store), old(view), SaveNextRoot(old(store), now), later, store, view, err)
    {
      hide Pass, KeyShape, BundlesOrdered, KeysOrdered, IssuerShape;
      if store.roots == [] {
        return Some(NoRootYet);
      }
      for i := 0 to |store.roots|
        invariant forall k | 0 <= k < i :: store.roots[k].state == RootActive
      {
        if store.roots[i].state != RootActive {
          return Some(RotationBusy);
        }
      }
      store := store.(roots := store.roots + [Root(NewRoot(store.unused, now), RootNext, true)], unused := store.unused + 1);
      err := Ensure(later);
    }

    method PromoteRoot(now: int, later: int) returns (err: Option<PkiError>)
      requires Shape(store)
      modifies this
      ensures StepLeaves(old(store), old(view), SavePromotion(old(store), now), later, store, view, err)
    {
      hide Pass, KeyShape, BundlesOrdered, KeysOrdered, Listed;
      var active := FindActiveRoot(store.roots);
      if active.None? {
        return Some(NoRootYet);
      }
      if |store.roots| != 2 || store.roots[1].state != RootNext {
        return Some(NoRotation);
      }
      var listed := CountListed(store.issuers);
      if listed + 1 > MAX_BUNDLE_ISSUERS {
        return Some(TooManyIssuers);
      }
      var next := store.roots[1];
      if !next.keyStored {
        return Some(RootUnavailable);
      }
      var created := NewIntermediate(next.cert, store.unused, now);
      if created.Err? {
        return Some(created.error);
      }
      var older, _ := ReplaceIssuers(store.issuers, store.revocations, false);
      store := store.(roots := [store.roots[0].(state := RootRetired), next.(state := RootActive)],
                      issuers := older + [Issuer(created.value, IssuerActive, now)], unused := store.unused + 1);
      err := Ensure(later);
    }

    /** The caller decides when nothing depends on the previous root any more. */
    method RetireRoot(later: int) returns (err: Option<PkiError>)
      requires Shape(store)
      requires forall root | root in store.roots && root.state == RootRetired && store.issuers != [] ::
                 !SignedBy(store.issuers[|store.issuers| - 1].cert, root.cert)
      modifies this
      ensures StepLeaves(old(store), old(view), SaveRetirement(old(store)), later, store, view, err)
    {
      hide Pass, KeyShape, BundlesOrdered, KeysOrdered;
      if store.roots == [] {
        return Some(NoRootYet);
      }
      if store.roots[0].state != RootRetired {
        return Some(NoRotation);
      }
      var kept := RemoveUnder(store.issuers, store.roots[0].cert);
      NewestStays(store.issuers, store.roots[0].cert);
      store := store.(roots := [store.roots[1]], issuers := kept);
      err := Ensure(later);
    }
  }

  lemma NewestStays(issuers: seq<Issuer>, root: Cert)
    requires IssuerShape(issuers) && issuers != []
    requires !SignedBy(issuers[|issuers| - 1].cert, root)
    ensures NotUnder(issuers, root) != [] && IssuerShape(NotUnder(issuers, root))
  {
    var last := |issuers| - 1;
    var keep := (i: Issuer) => !SignedBy(i.cert, root);
    assert issuers == issuers[..last] + [issuers[last]];
    FilterAppend(issuers[..last], issuers[last], keep);
    assert forall x | x in Filter(issuers[..last], keep) :: x.state != IssuerActive;
  }

  // ---------- The manager and the events of a run ----------

  /** What a pass of the manager leaves is what the event of a pass leaves. */
  lemma PassIsAnEvent(w: World, now: int, store: Store, view: Option<View>, err: Option<PkiError>)
    requires Shape(w.store) && PassLeaves(w.store, w.view, now, store, view, err)
    ensures Next(w, PassRun(now)).store == store && Next(w, PassRun(now)).view == view
  {
  }

  /**
  A step of the manager is the event that saves and, unless it was refused, the
  event of a pass: what holds of every run holds of it, also if it stops between.
  */
  lemma StepIsTwoEvents(w: World, e: Event, saved: Result<Store, PkiError>, now: int, later: int,
                        store: Store, view: Option<View>, err: Option<PkiError>)
    requires Shape(w.store) && Next(w, e) == AfterSave(w, saved, now)
    requires StepLeaves(w.store, w.view, saved, later, store, view, err)
    ensures saved.Err? ==> Next(w, e).store == store && Next(w, e).view == view
    ensures saved.Ok? ==> Shape(Next(w, e).store)
    ensures saved.Ok? ==> Next(Next(w, e), PassRun(later)).store == store && Next(Next(w, e), PassRun(later)).view == view
  {
    hide Pass, Shape;
    if saved.Ok? {
      PassIsAnEvent(Next(w, e), later, store, view, err);
    }
  }
}
