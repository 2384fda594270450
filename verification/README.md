# Jolt, modelled and proved in Dafny

Jolt has a Control Tower and nodes. This project models the parts of it where
state, time and lost messages meet, and proves what they promise:

- the certificate authority the Control Tower runs, over every run of passes,
  operator steps and restarts (`Pki*.dfy`);
- the nodes enrolled in it, and what a root rotation may do to them
  (`Managed*.dfy`);
- the lease of a signed job, renewed over a network that loses, delays, repeats
  and reorders (`JobLease*.dfy`, `LeaseSigning.dfy`);
- the rotation of a node's token and the pairing of two nodes
  (`NodeToken.dfy`, `Pairing.dfy`);
- the access context nodes enforce, what is done to policies before they are
  signed, and the strict reading of JSON (`FileTypes.dfy`, `AccessContext.dfy`,
  `AccessRewrites.dfy`, `StrictJson.dfy`);
- the limits of an agent (`AgentLimiter.dfy`, `AgentRate.dfy`, `AgentBurst.dfy`,
  `AgentQuota.dfy`), the check of an exported audit log (`AuditChain.dfy`) and
  the choice of paths and grants of a transfer (`TransferSelection.dfy`).

`dafny verify dfyconfig.toml` checks all of it.

## How it is built

One clock, which never runs backwards, is shared by all parties. Keys, serials
and tokens are numbers; a new one is above every one in use. A signature is the
key that made it together with what it covers, a certificate is its own
fingerprint, and a digest stands for what it was taken of. A call between the
Control Tower and a node may lose its request or its answer; in the protocols
that outlive one call (leases, tokens, pairing) anything once sent may still
arrive later, or twice.

Code that changes things step by step is a class or a method with loops, proved
equal to a function on values. The theorems about runs are about those
functions. For the authority, a pass and what an operator step saves are two
events of a run, so a run covers a process that stops between them;
`PkiManager.Manager` makes both.

## Where the code does less than it seems to

Each of these is proved, and so is the condition under which it does not matter.

- Automatic renewal of the intermediate does not look at the limit of two. After
  a planned rotation it can list a third, and no node takes that bundle
  (`RotationThenRenewal`, a run from an empty store); `PassOverLimit` says exactly
  when, by what is stored before the pass.
- A revoking rotation of the intermediate does not look at the limit on revoked
  serials. From a full list it publishes a bundle no node takes
  (`FullListThenRotation`, a run from an empty store). The list stays within the
  limit if and only if each such rotation starts with room for the listed
  intermediates not yet in it (`NextFits`, `ListStaysWithin`).
- A pass over the enrolled nodes reads their list once. A node enrolled while it
  runs, before the promotion is in view, can be left under the root the pass drops
  (`EnrolledDuringPass`, a run from an empty store with an unforced promotion). This
  happens to exactly the reached nodes enrolled since the list was read whose
  certificate was issued before the view showed the promotion (`RetirementExactly`),
  so to none if the list was read after that and no earlier enrollment was under way
  (`ListedAfterPromotion`).
- An enrollment is answered before it is recorded, and an unforced promotion in
  between does not wait for it (`JoinerCutOff`, a run from an empty store). A
  promotion cuts off exactly the nodes whose bundle does not list the next root
  (`PromotionCutsOffExactly`).
- Reconciling a lease reads the node's status before it looks at the clock. A
  delivery that lands in between makes it drop the lease the node has just taken
  (`EarlyReadBreaksARun`, from a new link; `ReadEarlyCanBreak`, from any state with
  a delivery on its way); it keeps both sides together exactly if the status still
  says what the node holds (`ResolveExactly`), which a status read at or after
  the end of the pending lease always does (`ReadLateIsRight`).
- An approval still on its way when a pairing is revoked finds the invite unused
  (`LateApprovalTrustsAgain`); `RevokedStaysExactly` says when a revoked side
  stays so.
- An agent's ceiling compares capability names, so one with `create` but not
  `write`, or the reverse, would not keep decisions (`CeilingFaithfulExactly`).
  The ceilings an agent can be given hold only `read` and `list`, which are cut
  cleanly.
- An idle bucket of the agent limiter is evicted after five minutes, and requests
  read the clock before they take the lock. With requests at most some time behind the
  latest clock seen, the bound on admissions holds of every run if and only if the
  rate gives a whole burst in five minutes less twice that time (`AdmissionsBounded`,
  `BoundExceeded`). A bucket that is not evicted keeps it in any order
  (`BoundedInAnyOrder`).
- The overlap check of a transfer compares neighbours in sorted order. It misses
  an overlap exactly where a path is followed by one that goes on from it with a
  character before `/` and, further on, by one inside it
  (`NeighboursMissExactly`); any such character lets one through
  (`NeighboursMissOverlap`). Where no selected path goes on from another in that
  way the check is complete (`NeighboursSuffice`).
- The audit check reads a missing detail and an empty one as the same, so exports it
  cannot tell apart are equal up to that (`LastHashFixesEvents`).

## Model

| member | source | states |
|---|---|---|
| PkiCa.NewRoot | control/internal/pki/ca.go:71-99 | a root signs itself and its window holds the instant it was made |
| PkiCa.NewIntermediate | control/internal/pki/ca.go:103-136 | made exactly when the root outlives it; signed by the root, inside the root's window |
| PkiCa.Issue | control/internal/pki/ca.go:140-181 | made exactly for a validity in range, a named server and an unexpired issuer; the leaf lies inside its issuer's window |
| PkiCa.IssuedExactly | control/internal/pki/ca.go:140-181 | a leaf is for its subject under its number, starts five minutes back and ends when asked, 90 days on if not said, or with its issuer |
| PkiBundle.HasRootAbove | control/internal/pki/bundle.go:179-192 | decides whether another listed root signed an intermediate that did not sign itself |
| PkiBundle.Validate | control/internal/pki/bundle.go:149-197 | succeeds exactly for a bundle within its limits, with distinct key ids, unexpired CA roots and unexpired intermediates under a listed root; an error names the first rule that failed |
| PkiBundle.PublicKeysHold | control/internal/pki/bundle.go:115-124 | with distinct ids, each unexpired entry's key is the one found under its id |
| PkiBundle.CollectPublicKeys | control/internal/pki/bundle.go:115-124 | the loop gives the unexpired keys by id |
| PkiBundle.Revoked | control/internal/pki/bundle.go:127-134 | true exactly for listed serials |
| PkiBundle.ChainRevoked | control/internal/pki/bundle.go:138-145 | true exactly if some certificate of the chain is listed |
| PkiBundle.KeepsARoot | control/internal/pki/bundle.go:239-248 | decides whether a bundle shares a root with the one before |
| PkiBundle.VerifyBundle | control/internal/pki/bundle.go:230-274 | accepts exactly a well-formed bundle that is newer, shares a root and is signed by an unexpired key the held bundle lists, or a first one that holds the pinned root; an error names the first condition that failed |
| PkiBundle.WellFormedExactly | control/internal/pki/bundle.go:149-197 | what well-formed means, in the numbers and fields of a bundle |
| PkiBundle.FirstExactly | control/internal/pki/bundle.go:249-274 | a first bundle is taken if and only if it is well-formed, holds the pinned root and a key it lists signed it; without a pin never |
| PkiBundle.LaterExactly | control/internal/pki/bundle.go:230-274 | a later one if and only if it is well-formed, newer, has a root in common and a key the held one lists signed it |
| PkiBundle.VerifyNode | control/internal/httpapi/node_client_tls.go:204-246 | accepts exactly a node with a verified chain that ends outside the authority or has nothing revoked, or the very certificate issued to a node, unrevoked and for the dialed name |
| PkiBundle.AcceptedExactly | control/internal/httpapi/node_client_tls.go:204-246 | a node is talked to if and only if some chain ends outside the authority or has nothing revoked, or its certificate is pinned, named and unrevoked |
| PkiBundle.RevokedLeafRefused | control/internal/httpapi/node_client_tls.go:204-246 | a revoked leaf whose chains all end in the authority's roots is refused, pinned or not |
| PkiPass.InsertSerial | control/internal/pki/manager.go:352-355 | inserting keeps every serial and adds one |
| PkiPass.LiveIssuers | control/internal/pki/manager.go:301-306 | keeps exactly the active intermediate and those not run out |
| PkiPass.Listed | control/internal/pki/manager.go:331-340 | lists exactly the certificates of intermediates that are not revoked |
| PkiManager.FindActiveRoot | control/internal/pki/manager.go:223-248 | finds the one active root |
| PkiManager.SweepRevocations | control/internal/pki/manager.go:254-267 | keeps exactly the revocations whose certificate ended less than a day ago or not yet |
| PkiManager.FindIssuer | control/internal/pki/manager.go:272-277 | finds the newest active intermediate |
| PkiManager.RenewIssuer | control/internal/pki/manager.go:278-300 | renews, refuses, or goes on without the root's key, as the pass says |
| PkiManager.SweepIssuers | control/internal/pki/manager.go:301-306 | drops exactly the retired and revoked intermediates that have run out |
| PkiManager.SortKeys | control/internal/pki/manager.go:446-559 | finds the active, the pending and the retiring signing key |
| PkiManager.ManageSigningKeys | control/internal/pki/manager.go:446-559 | creates, promotes, retires and removes signing keys as the pass says |
| PkiManager.SortSerials | control/internal/pki/manager.go:352-356 | the serials of the stored revocations, in order |
| PkiManager.ListIssuers | control/internal/pki/manager.go:331-340 | the certificates a bundle lists, oldest first |
| PkiManager.PublishKeys | control/internal/pki/manager.go:340-344 | the entries of the stored keys, in order |
| PkiManager.FindLatest | control/internal/pki/manager.go:345-350 | finds the newest stored bundle |
| PkiManager.ComparesTrust | control/internal/pki/manager.go:416-441 | true exactly if two bundles list the same roots, intermediates, keys and serials |
| PkiManager.TrimBundles | control/internal/pki/manager.go:377-387 | keeps the last five bundles |
| PkiManager.Refresh | control/internal/pki/manager.go:223-313 | the objects of a pass before its bundle, or its refusal |
| PkiManager.CountListed | control/internal/pki/lifecycle.go:152-160 | counts the intermediates a bundle lists |
| PkiManager.ReplaceIssuers | control/internal/pki/lifecycle.go:274-291 | retires the earlier intermediates, or revokes and records all of them |
| PkiManager.RemoveUnder | control/internal/pki/lifecycle.go:391-397 | keeps exactly the intermediates the retired root did not sign |
| PkiManager.JudgeSerial | control/internal/pki/lifecycle.go:177-190 | tells a root, the intermediate in use, an already revoked serial and a free one apart |
| PkiManager.Manager.constructor | control/internal/pki/manager.go:126-140 | starts with nothing stored and no view |
| PkiManager.Manager.Ensure | control/internal/pki/manager.go:195-414 | a pass leaves store, view and answer as the pass says; a refused one changes nothing |
| PkiManager.Manager.Publish | control/internal/pki/manager.go:320-388 | signs and stores a bundle only if what nodes trust has changed, and renews the view |
| PkiManager.Manager.Revoke | control/internal/pki/lifecycle.go:166-202 | saves the revocation and runs a pass; a serial already revoked changes nothing |
| PkiManager.Manager.RotateIntermediate | control/internal/pki/lifecycle.go:249-296 | saves a new intermediate, the old ones retired or revoked, and runs a pass; refusals change nothing |
| PkiManager.Manager.BeginRootRotation | control/internal/pki/lifecycle.go:316-334 | saves a next root and runs a pass, unless a rotation is under way |
| PkiManager.Manager.PromoteRoot | control/internal/pki/lifecycle.go:340-373 | makes the next root active with a new intermediate and runs a pass; refusals change nothing |
| PkiManager.Manager.RetireRoot | control/internal/pki/lifecycle.go:378-403 | drops the retired root and what it signed and runs a pass |
| PkiManager.PassIsAnEvent | control/internal/pki/manager.go:195-414 | a pass of the manager is the event of a pass |
| PkiManager.StepIsTwoEvents | control/internal/pki/lifecycle.go:166-403 | an operator step of the manager is the event that saves and then the event of a pass, so what holds of every run holds of it |
| PkiInvariant.RefreshedOk | control/internal/pki/manager.go:223-313 | what a pass works on has one active root, one active intermediate in date, and keys and windows in order |
| PkiInvariant.PassKeepsInv | control/internal/pki/manager.go:201-414 | a pass keeps the invariant of store, view and published bundles |
| PkiInvariant.NextKeepsInv | control/internal/pki/lifecycle.go:166-403 | so does every event of a run: passes, restarts, operator steps cut off before their pass, leaves issued |
| PkiHistory.DesiredSound | control/internal/pki/manager.go:320-356 | what a pass publishes has usable roots, distinct keys and every intermediate under a listed root |
| PkiHistory.PassKeepsHistory | control/internal/pki/manager.go:320-388 | each published bundle shares a root with the one before and is signed by a key every recent bundle lists |
| PkiRuns.RunKeepsHistory | control/internal/pki/manager.go:201-414 | over every run |
| PkiRuns.NextBundleAdoptable | control/internal/pki/bundle.go:149-274 | in every run a node takes the next bundle at an instant if and only if the bundle is within its limits and its certificates and signing key have not run out |
| PkiRuns.LaterBundleAdoptable | control/internal/pki/bundle.go:149-274 | the same of any later bundle that shares a root and is at most seven days behind, those between skipped |
| PkiRuns.SignerKnownToRecentNodes | control/internal/pki/manager.go:446-559 | a bundle's signing key is listed in every bundle a node can hold that is at most seven days behind |
| PkiRuns.OneActiveRoot | control/internal/pki/lifecycle.go:316-403 | every reachable state has one active root, and never both a next and a retired one |
| PkiRuns.OneActiveIssuer | control/internal/pki/manager.go:269-306 | one active intermediate, the newest, signed by the active root; every stored one inside the window of a root that signs or signed |
| PkiRuns.OneSigner | control/internal/pki/manager.go:446-559 | one active signing key, at most two published, and any but the first published seven days before it signs |
| PkiPublish.PublishesExactly | control/internal/pki/manager.go:320-388 | in every reachable state a pass publishes nothing if and only if the latest bundle already lists the roots, intermediates, keys and serials it leaves stored; otherwise one bundle that does |
| PkiPublish.RefusedPublishesNothing | control/internal/pki/manager.go:195-313 | a refused pass changes nothing |
| PkiPublish.PassPublishes | control/internal/pki/manager.go:320-388 | after a pass that is not refused the latest bundle says what is stored |
| PkiPublish.IdleRun | control/internal/pki/manager.go:201-388 | however many passes, restarts and leaves follow a pass before a renewal, a run-out intermediate, a key's age or a run-out revocation is due, nothing is published or changed |
| PkiPublish.KeysOverEvents | control/internal/pki/manager.go:446-559 | only a pass touches the signing keys: it drops a replaced one exactly at its end or 14 days after its successor was made, makes one exactly when there is none or the only one is 60 days old, and lets a successor sign exactly once it is 7 days old |
| PkiPublish.KeyStaysPublished | control/internal/pki/manager.go:446-559 | over every run a key stays published for 74 days |
| PkiPublish.PassRefusedExactly | control/internal/pki/manager.go:269-300 | a pass is refused exactly if the intermediate is due and the root's key is away with the intermediate ended, or the root too short; with the key away before that it goes on, says so and makes none |
| PkiPublish.IntermediateRefusedExactly | control/internal/pki/lifecycle.go:249-296 | when each refusal of a new intermediate is given: no root, no room, a wrong key, no key, a root too short |
| PkiPublish.NextRootRefusedExactly | control/internal/pki/lifecycle.go:316-334 | a next root is made exactly when there is one root alone, beside it, and nothing else changes |
| PkiPublish.PromotionRefusedExactly | control/internal/pki/lifecycle.go:340-373 | when each refusal of a promotion is given |
| PkiPublish.RetirementRefusedExactly | control/internal/pki/lifecycle.go:378-403 | a retirement goes through exactly for a promoted rotation and keeps exactly what the retired root did not sign |
| PkiPublish.RevocationRefusedExactly | control/internal/pki/lifecycle.go:166-202 | when each refusal of a revocation is given; one already stored changes nothing, any other is added with its end or 180 days |
| PkiPublish.RootKeyExactly | control/internal/pki/rootbackup.go:168-230 | the key of the active root, and nothing else, goes or comes back |
| PkiTiming.ManagedInTime | control/internal/pki/manager.go:446-559 | with passes on time the active key has days left |
| PkiTiming.PunctualRunsAreAdoptable | control/internal/pki/manager.go:201-414 | with passes at most some gap of up to 23 days apart, a node takes the next bundle when it is issued and for the rest of 23 days, while its certificates last |
| PkiTiming.IssuedUnexpired | control/internal/pki/manager.go:301-340 | when a bundle is issued its active root and its intermediates have not run out |
| PkiCaps.ListedAfterPass | control/internal/pki/manager.go:269-340 | a pass lists the unrevoked intermediates that have not run out, and one more when it renews |
| PkiCaps.RenewsExactly | control/internal/pki/manager.go:278-300 | a pass that is not refused renews if and only if the newest intermediate is due and the root's key is stored |
| PkiCaps.PassOverLimit | control/internal/pki/manager.go:269-340 | the bundle has too many if and only if more than two are left, or two with the newest due for renewal and the root's key stored; no node takes it then |
| PkiCaps.AutomaticRunsListTwo | control/internal/pki/manager.go:163-165 | under automatic renewal alone, for any schedule of passes, no bundle lists more than two |
| PkiCaps.OperatorStepsLeaveTwo | control/internal/pki/lifecycle.go:253-373 | a successful rotation of the intermediate or promotion of a root leaves at most two |
| PkiWitness.FirstPass | control/internal/pki/manager.go:223-300 | what a first pass leaves: one root, one intermediate, nothing revoked |
| PkiWitness.OverfullRefused | control/internal/pki/bundle.go:149-197 | a pass over a store with too many intermediates or revocations publishes a bundle that no node takes at any instant |
| PkiWitness.RotationThenRenewal | control/internal/pki/manager.go:278-340 | a run from an empty store in which a planned rotation and then automatic renewal give a bundle no node takes |
| PkiWitness.FullListThenRotation | control/internal/pki/lifecycle.go:274-291 | a run from an empty store in which the list fills up and a revoking rotation then gives a bundle no node takes |
| PkiRevocation.InsertedInOrder | control/internal/pki/manager.go:352-356 | the published serials stay in order |
| PkiRevocation.PublishedSerials | control/internal/pki/manager.go:352-356 | the published serials are exactly those of the stored revocations, in order |
| PkiRevocation.RevokeListedKeeps | control/internal/pki/lifecycle.go:274-291 | a revoking rotation keeps earlier revocations |
| PkiRevocation.PassHolds | control/internal/pki/manager.go:254-267 | a pass keeps a stored revocation until a day after its end and shows it in the view |
| PkiRevocation.RunHolds | control/internal/pki/manager.go:254-267 | over any run a stored revocation stays, is listed in every bundle and, once shown, in every view, until a day after its end |
| PkiRevocation.RevokedFromThenOn | control/internal/pki/lifecycle.go:166-215 | from a successful revocation of a serial that was given out until a day after its recorded end, or the intermediate's own end if it names one, whatever else happens, it stays stored and every bundle published lists it |
| PkiRevocation.RevokedNodeRefused | control/internal/httpapi/node_client_tls.go:204-246 | from the first pass after that on, under every view of the run in that time, the node is refused, pinned or not |
| PkiRevocation.RevokeListedCounts | control/internal/pki/lifecycle.go:274-291 | a revoking rotation adds exactly the listed intermediates not yet in the list |
| PkiRevocation.NextFits | control/internal/pki/lifecycle.go:166-293 | from a list within 1024, an event leaves it so if and only if it is not a revoking rotation that goes through without room for what it adds |
| PkiRevocation.ListStaysWithin | control/internal/pki/lifecycle.go:166-293 | over a whole run the list stays within 1024 if and only if every revoking rotation had that room |
| PkiTracking.NextRecorded | control/internal/pki/lifecycle.go:274-291 | a revoked intermediate is in the revocation list for as long as it is stored |
| PkiTracking.NextTracks | control/internal/pki/manager.go:301-306 | an issued intermediate is stored, has run out, or was signed by a root that is gone |
| PkiView.NextApart | control/internal/pki/lifecycle.go:177-190 | over every event no root and not the intermediate in use is revoked, and only serials given out are |
| PkiView.IssuerNotRetired | control/internal/pki/lifecycle.go:340-373 | the intermediate in use is never one of the retired root's |
| PkiView.NextSigns | control/internal/pki/manager.go:563-660 | over every event the view can certify: its intermediate is under and within a root its bundle lists, unrevoked and not the retired root's |
| PkiView.NextLists | control/internal/pki/manager.go:563-660 | while a rotation is promoted in view and store, the view's bundle lists the retired root, and the view names every listed intermediate under it |
| PkiView.NextBundleTracks | control/internal/pki/manager.go:301-340 | over every event the latest bundle lists an issued intermediate, revokes it, lists no root that signed it, or it has run out |
| ManagedNodes.SyncManagedNodes | control/internal/httpapi/managed_nodes.go:54-163 | each record and node of the list, updated in place, is what one sync of it gives; the answer is whether the retired root is unused by them |
| ManagedNodes.UnusedRoot | control/internal/httpapi/managed_nodes.go:171-190 | true exactly if the rotation is promoted and every record of the list of a node still reached is current, unfailed and not under the retired root |
| ManagedNodes.NodesBehind | control/internal/httpapi/crypto_lifecycle.go:196-215 | names exactly the nodes an unforced promotion waits for, none if and only if all have confirmed |
| ManagedNodes.CertifyStaysHonest | control/internal/httpapi/managed_nodes.go:136-158 | however replacing the certificate goes, the record claims no certificate the node does not serve |
| ManagedNodes.SyncStaysHonest | control/internal/httpapi/managed_nodes.go:97-163 | whatever calls are lost, a record claims no bundle the node has not got and, unless marked failed, no wrong certificate |
| ManagedNodes.SyncSettles | control/internal/httpapi/managed_nodes.go:97-163 | a sync that ends well leaves the node with the current bundle and a certificate just issued, or one with life left whose intermediate is neither revoked nor under the retired root |
| ManagedNodes.GoodCertificateStays | control/internal/httpapi/managed_nodes.go:97-163 | however the calls go, a certificate is replaced only if two thirds of its believed life have passed or its intermediate is revoked or under a retired root; one that is not due is left alone and the record cleared |
| ManagedNodes.DueCertificateReplaced | control/internal/httpapi/managed_nodes.go:136-158 | one that is due is replaced, and the record not failed, exactly if the request, the issue and the installation all work |
| ManagedNodes.BehindIsMarked | control/internal/httpapi/managed_nodes.go:97-123 | a node that is not brought up to date is marked failed, keeps its certificate, and has a new bundle only if the answer was lost |
| ManagedNodes.UnusedExactly | control/internal/httpapi/managed_nodes.go:171-190 | what a record has to say for the retired root to count as unused |
| ManagedNodes.ConfirmedExactly | control/internal/httpapi/crypto_lifecycle.go:196-215 | all have confirmed if and only if every record behind is of a revoked certificate |
| ManagedNodes.ServerChainExactly | node/backend/internal/trust/manager.go:282-340 | a node takes a chain if and only if every certificate of it is in date and unrevoked and it leads to a root of its bundle |
| ManagedRuns.SyncPlaces | control/internal/httpapi/managed_nodes.go:97-163 | however a sync goes, a record not marked failed is of a node whose intermediate the claimed bundle does not revoke and lists, or lists no root above |
| ManagedEras.NextEraOk | control/internal/pki/lifecycle.go:340-403 | the view signs with the older stored root until it shows the promotion that is stored, and then with the one that stays |
| ManagedEras.NextSided | control/internal/pki/lifecycle.go:340-403 | over every event, which stored root is above a node's certificate is told by whether it was issued before the view showed the promotion |
| ManagedRuns.MoveKeeps | control/internal/httpapi/managed_nodes.go:54-190 | every step of authority, enrollment in its two parts, promotion, and a pass from the reading of its list to the retirement, keeps the invariant of authority, view, records and nodes |
| ManagedRuns.EnrolledExactly | control/internal/httpapi/enrollment.go:360-390 | an enrollment leaves a certificate of the intermediate in view, the bundle in view and a record that says so |
| ManagedRuns.PassEnds | control/internal/httpapi/managed_nodes.go:54-90 | a pass ends with its look at the retired root or with the process, which also ends enrollments under way |
| ManagedSafety.DropsExactly | control/internal/httpapi/managed_nodes.go:171-190 | a pass drops the root if and only if the promotion is stored and in view and no record of its list still spoken to holds the root back |
| ManagedSafety.NotUnderRetired | control/internal/httpapi/managed_nodes.go:171-190 | a record at the current version that names no retired intermediate is of a node outside the retired root |
| ManagedSafety.RetirementStrandsNobody | control/internal/httpapi/managed_nodes.go:63-190 | in every run, when a pass drops the retired root each node on its list that is still reached holds the current bundle, which lists the root that stays, and serves a certificate whose intermediate the dropped root did not sign and the bundle does not revoke |
| ManagedSafety.UnderDroppedExactly | control/internal/httpapi/managed_nodes.go:171-190 | of every node, listed or not, and every enrollment under way: under the dropped root if and only if certified before the view showed the promotion and since the one before; under the root that stays if and only if certified later |
| ManagedSafety.RetirementExactly | control/internal/httpapi/managed_nodes.go:63-190 | in every run, dropping the root leaves no reached node under it if and only if no reached node enrolled since the list was read was certified before the view showed the promotion and since the last root was dropped |
| ManagedSafety.ListedAfterPromotion | control/internal/httpapi/managed_nodes.go:63-190 | if the promotion was stored and in view when the list was read and no earlier enrollment was under way, whatever happens during the pass strands nobody |
| ManagedWitness.EnrolledDuringPass | control/internal/httpapi/managed_nodes.go:63-190 | a run from an empty store: a second node is enrolled during a pass, an unforced promotion goes through, and the pass drops the root the second node is under |
| ManagedSafety.PromotionCutsOffExactly | control/internal/pki/lifecycle.go:340-373 | after a promotion that goes through a node does not know the active root if and only if its bundle did not list the next one |
| ManagedSafety.NoNodeCutOff | control/internal/httpapi/crypto_lifecycle.go:180-222 | in every run, a node that each promotion waited for, with no enrollment under way behind, always holds a bundle with the active root, and shares a root with the latest one |
| ManagedWitness.JoinerCutOff | control/internal/httpapi/enrollment.go:360-390 | a run from an empty store: an enrollment is answered, a root prepared and promoted unforced, and the node recorded then does not know the active root |
| ManagedSafety.NodeTakesLatest | control/internal/httpapi/managed_nodes.go:97-135 | such a node, however many bundles behind within the seven days, takes the latest one directly if and only if that is within its limits and has not run out |
| ManagedSafety.SyncFinishes | control/internal/httpapi/managed_nodes.go:97-163 | a node that answers and can take the bundle is done with the retired root after one sync, while the intermediate in use lasts |
| ManagedSafety.OnePassFinishes | control/internal/httpapi/managed_nodes.go:54-190 | in every run with a promoted rotation in view, one whole pass, in which each node still reached answers and can take the bundle, drops the retired root if it is still stored and leaves the active one, at any time before the intermediate in use ends |
| JobLease.VerifiedUntilExpiry | control/internal/signedauth/signedauth.go:205-225 | whole seconds lose nothing: a lease is refused from the instant it ends |
| JobLease.Issue | control/internal/httpapi/signed_job_issuer.go:134-175 | a lease is for its revision and context and ends by every limit |
| JobLease.LaterEndsLater | control/internal/httpapi/signed_job_delivery.go:60-75 | whoever keeps their standing is offered an end no earlier later on, so a pending lease can be derived again |
| JobLease.IssuedExactly | control/internal/httpapi/signed_job_issuer.go:134-175 | a lease is signed if and only if the revision is one, the standing covers the job and every limit is past the second |
| JobLease.StagedExactly | control/internal/store/job_authorization_links.go:205-254 | what may be recorded as pending, and what the link then is |
| JobLease.ConfirmedExactly | control/internal/store/job_authorization_links.go:256-298 | what may be confirmed, and what the link then is |
| JobLease.ReconciledExactly | control/internal/httpapi/signed_job_status.go:105-133 | which of the four outcomes a reported status leads to, and when to none |
| JobLease.ReceivedExactly | node/backend/internal/infra/state/job_authorizations.go:92-175 | the node takes exactly the next revision in date, and the one it has again while that lasts |
| JobLeaseRuns.NextKeeps | control/internal/httpapi/signed_job_status.go:105-133 | every step of Control Tower, node and network keeps the protocol's invariant, if an expired lease is ended with a status read after its end |
| JobLeaseRuns.LeasesAgree | control/internal/store/job_authorization_links.go:205-342 | over every run with lost, late, repeated messages and restarts the node holds the confirmed or the pending lease, the pending one is the next revision, and no two usable envelopes share a revision |
| JobLeaseRuns.ResolveExactly | control/internal/store/job_authorization_links.go:300-342 | ending an expired lease keeps both sides together if and only if the status still says what the node holds |
| JobLeaseRuns.ReadLateIsRight | control/internal/httpapi/signed_job_status.go:105-118 | a status read at or after the end always still says it |
| JobLeaseRuns.ReadEarlyCanBreak | control/internal/httpapi/signed_job_status.go:105-118 | wherever a delivery is on its way, a status read before the end can leave the two sides apart |
| JobLeaseRuns.EarlyReadBreaksARun | control/internal/httpapi/signed_job_status.go:105-118 | from a new link of anyone who can be given a lease, some run ends with the two sides apart in that way |
| JobLeaseRuns.SentIsCurrentAndShort | control/internal/httpapi/signed_job_delivery.go:60-84 | a lease that goes out, for the first time or again, carries the access of that moment and ends by 30 seconds, the credential, the temporary grant and the deadline of that moment |
| JobLeaseRuns.ChangesAreEarned | control/internal/store/job_authorization_links.go:205-342 | the node takes only a live lease of the next revision, only such a lease is staged, and what is confirmed is what the node holds |
| JobLeaseRuns.RevisionsGrow | node/backend/internal/infra/state/job_authorizations.go:92-175 | neither side goes back to an earlier revision |
| JobLeaseRenewal.Renewal.constructor | control/internal/store/job_authorization_links.go:95-145 | a new link has nothing confirmed and nothing pending |
| JobLeaseRenewal.Renewal.Arrivals | node/backend/internal/infra/state/job_authorizations.go:92-175 | what the node makes of envelopes that reach it, in turn |
| JobLeaseRenewal.Renewal.ReconcileLink | control/internal/httpapi/signed_job_status.go:105-133 | the link and the outcome after a status, in all four outcomes and the failures |
| JobLeaseRenewal.Renewal.DeliverPending | control/internal/httpapi/signed_job_delivery.go:17-85 | derives again, sends, and confirms exactly what the node answered |
| JobLeaseRenewal.Renewal.StageLease | control/internal/httpapi/signed_job_staging.go:16-73 | records the next revision before it is delivered |
| JobLeaseRenewal.Renewal.Renew | control/internal/httpapi/signed_job_renewal.go:81-130 | one attempt, and when a job is finished with |
| JobLeaseRenewal.RenewedRuns | control/internal/httpapi/signed_job_renewal.go:81-130 | whatever its calls do, an attempt only takes steps of the protocol |
| JobLeaseRenewal.AnswerIsTrue | control/internal/httpapi/signed_job_renewal.go:81-130 | for every job and whatever the calls do, a link is finished with if and only if the job is gone or in one of the four final states; a success for a job that may run means both sides have one live lease and nothing pending; a job unreachable, final or changing leaves all as it was |
| JobLeaseRenewal.SentOnlyIfRead | control/internal/httpapi/signed_job_delivery.go:17-85 | nothing is sent for a job that cannot be read, and only the pending lease |
| JobLeaseRenewal.StagedOnlyIfRead | control/internal/httpapi/signed_job_staging.go:16-73 | nothing is staged for one, and only the revision after the one the node reports |
| JobLeaseRenewal.SendableExactly | control/internal/httpapi/signed_job_delivery.go:60-84 | of an actor who keeps their standing, a live pending lease is sent again if and only if it carries the context of now and ends by every limit of now |
| JobLeaseRenewal.EarlierAttemptSuits | control/internal/httpapi/signed_job_renewal.go:155-170 | a lease left by an earlier attempt, cut at that attempt's deadline, still does |
| JobLeaseRenewal.RenewalAgrees | control/internal/httpapi/signed_job_renewal.go:81-130 | from any state of a run, an attempt whose calls are all answered, whose actor keeps their standing and whose pending lease, if any, is live and suits that standing, ends with both sides on one live lease |
| LeaseSigning.MeetsAll | control/internal/httpapi/signed_job_issuer.go:143-150 | true exactly if every requirement is named, not denied beyond the context, and allowed for a directory or a file |
| LeaseSigning.MetExactly | control/internal/httpapi/signed_job_issuer.go:143-150 | a requirement is met if and only if its path is named and not denied beyond the context and some kind of entry is allowed there |
| LeaseSigning.SignLease | control/internal/httpapi/signed_job_issuer.go:134-175 | signs exactly the lease the actor's standing gives, or nothing |
| LeaseSigning.SignedEnd | control/internal/httpapi/signed_job_issuer.go:155-165 | a lease ends by every limit and less than a second before the earliest |
| NodeToken.NextKeeps | control/internal/httpapi/server.go:2335-2409 | every step keeps the invariant: a staged token is the saved candidate, and old requests can change nothing |
| NodeToken.NeverLockedOut | control/internal/httpapi/server.go:2335-2409 | over every run the node works with the stored token or the saved candidate, and accepts it |
| NodeToken.Rotation.constructor | control/internal/store/store.go:2337-2352 | a node registered with the token that is stored |
| NodeToken.Rotation.Ask | node/backend/internal/infra/httpapi/server.go:328-350 | what a request leaves at the node and what is learnt of it |
| NodeToken.Rotation.Rotate | control/internal/httpapi/server.go:2335-2409 | one attempt: commit a saved candidate first, prepare it only if the node does not know it |
| NodeToken.OutcomeIsTrue | control/internal/httpapi/server.go:2335-2409 | from any state of a run, whatever the calls do: active is reported if and only if no candidate is left, and then both sides work with it; otherwise the stored token and the candidate are kept, and the call not answered says which failure is told |
| NodeToken.ServedExactly | node/backend/internal/infra/state/tokens.go:15-46 | what the node answers and does to each request |
| NodeToken.RotatedRuns | control/internal/httpapi/server.go:2375-2404 | whatever its calls do, an attempt only takes steps of the protocol |
| NodeToken.DoneMeansInUse | node/backend/internal/infra/state/tokens.go:31-46 | a commit that says done leaves the node working with that token and nothing staged |
| NodeToken.DoneStays | node/backend/internal/infra/state/tokens.go:15-46 | nothing that arrives late undoes it before the rotation is finished |
| NodeToken.UndisturbedAttemptEnds | control/internal/httpapi/server.go:2375-2404 | from any state of a run one undisturbed attempt ends with stored equal to in use and no candidate |
| Pairing.ClassifiedConnectedIsMutual | control/internal/httpapi/trust.go:67-90 | connected is said of exactly the pairs that trust each other, are registered, readable and not offline |
| Pairing.ClassifiedExactly | control/internal/httpapi/trust.go:67-90 | when each other status is said |
| Pairing.Connection.constructor | node/backend/internal/services/pairing/service.go:84-114 | a new connection has two unused tickets and no trust |
| Pairing.Connection.Approve | node/backend/internal/services/pairing/service.go:193-222 | an invite is used once, and trust comes with it |
| Pairing.Connection.EstablishConnection | control/internal/httpapi/server.go:2905-3011 | every step looks before it acts, in every outcome |
| Pairing.EstablishedExactly | control/internal/httpapi/server.go:2905-3011 | an attempt connects if and only if both nodes can be read and each side trusts already, or its ticket is good and all its calls are answered, the target's with the issuer's fingerprint |
| Pairing.FailureNamesItsStep | control/internal/httpapi/server.go:2905-3011 | each failure is told of exactly the first step that could not be taken |
| Pairing.SidesAfter | node/backend/internal/services/pairing/service.go:193-260 | a side comes to trust exactly if it was asked, the request arrived and its ticket was good, on the target's side with the issuer's fingerprint |
| Pairing.StatusAfter | control/internal/httpapi/server.go:2941-3011 | what is recorded after each outcome |
| Pairing.ReconciledUnlessClosed | control/internal/httpapi/trust.go:304-328 | a rejected or revoked connection is not taken up again |
| Pairing.Connection.Revoke | control/internal/httpapi/trust.go:340-406 | both sides are revoked, and revoked is recorded only if both are known to be |
| Pairing.RevokedExactly | control/internal/httpapi/trust.go:340-406 | which rows a revocation marks, and that it is recorded if and only if both deletions are answered |
| Pairing.ConnectedIsMutual | control/internal/httpapi/server.go:2905-3011 | whatever happened before and whatever is lost, connected is reported only of nodes that trust each other |
| Pairing.RevokedIsMutual | control/internal/httpapi/trust.go:340-406 | revoked is recorded only when neither node trusts the other |
| Pairing.RunKeepsWhole | node/backend/internal/infra/state/peers.go:87-125 | a ticket is unused and the peer unknown, or used once and the peer trusted |
| Pairing.ResumedAttemptConnects | control/internal/httpapi/trust.go:304-328 | after any interrupted attempts, one attempt with both nodes up connects them, and each ticket is used exactly once |
| Pairing.RevokedStaysExactly | node/backend/internal/infra/state/peers.go:87-125 | a revoked side trusts again if and only if its ticket was unused and a request comes in time |
| Pairing.LateApprovalTrustsAgain | control/internal/httpapi/trust.go:340-387 | an approval lost on the way and a recorded revocation, and the approval then arriving |
| FileTypes.ClassesOk | control/internal/filetypes/selector.go:53-59 | known and distinct classes only |
| FileTypes.ExtensionsOk | control/internal/filetypes/selector.go:60-71 | well-formed extensions, distinct ignoring case |
| FileTypes.NamesOk | control/internal/filetypes/selector.go:72-78 | well-formed names, distinct ignoring case |
| FileTypes.Validate | control/internal/filetypes/selector.go:47-80 | accepts exactly valid selectors |
| FileTypes.CompileSelector | control/internal/filetypes/selector.go:84-113 | the compiled matcher matches exactly the file names some class, extension or name of the selector selects |
| FileTypes.LowerByCharacter | control/internal/filetypes/selector.go:111 | case is folded character by character |
| FileTypes.ExtensionByLastDot | control/internal/filetypes/selector.go:112 | the extension is what follows the last dot |
| FileTypes.SelectsExactly | control/internal/filetypes/selector.go:84-113 | what a selector selects, told of the name as given |
| FileTypes.ValidExactly | control/internal/filetypes/selector.go:47-80 | what makes a selector valid, told of the values as given |
| FileTypes.MatchesExactly | control/internal/filetypes/selector.go:107-113 | a matcher matches plain names only |
| AccessContext.MatchPath | control/internal/filetypes/context.go:186-212 | decides segment-wise matching with a star and a trailing double star; the score of a match is the pattern's specificity, of no match zero |
| AccessContext.PathMatchesExactly | control/internal/filetypes/context.go:186-212 | segment by segment; only a double star at the end lets the resource go on |
| AccessContext.WeightAdds | control/internal/filetypes/context.go:199-208 | what each segment adds to the score |
| AccessContext.SpecificityExactly | control/internal/filetypes/context.go:189-211 | a closed pattern also counts its segments |
| AccessContext.CollectCapabilities | control/internal/filetypes/context.go:143-150 | the set of the named capabilities, exactly if known and distinct |
| AccessContext.CompileRule | control/internal/filetypes/context.go:133-160 | succeeds exactly for valid rules, and the compiled rule says the same as the rule |
| AccessContext.Compile | control/internal/filetypes/context.go:125-162 | succeeds exactly for version 1 with at most 256 rules, all valid |
| AccessContext.ValidRuleExactly | control/internal/filetypes/context.go:133-160 | what a rule has to be to compile |
| AccessContext.ValidPatternExactly | control/internal/filetypes/context.go:164-184 | what the segments of a pattern may be |
| AccessContext.ValidResourceExactly | control/internal/filetypes/context.go:218-234 | what the segments of a resource may be |
| AccessContext.CompiledMeansRule | control/internal/filetypes/context.go:214-216 | a compiled rule grants, denies and selects what the rule does |
| AccessContext.JudgeRule | control/internal/filetypes/context.go:247-275 | one rule's part in the loop is what the rule means for the question |
| AccessContext.Evaluate | control/internal/filetypes/context.go:239-283 | the loop that tracks specificity decides exactly: some rule allows and none denies, with what is restricted and shown |
| AccessContext.RuleExactly | control/internal/filetypes/context.go:247-275 | when one rule denies, allows, restricts and hides, in its own fields |
| AccessContext.DecisionExactly | control/internal/filetypes/context.go:239-283 | the decision from what the rules do: some allows and none denies; a restriction shows only if none hides it |
| AccessContext.OnlyTheRulesMatter | control/internal/filetypes/context.go:239-283 | permuting or repeating rules does not change the decision |
| AccessContext.JoinedRulesJoinDecisions | control/internal/httpapi/signed_transfer_issuer.go:41-53 | the decision of two lists together is the join of their decisions |
| AccessContext.DenialsStay | control/internal/filetypes/context.go:239-283 | adding rules never lifts a denial, and takes an allowance away only by denying |
| AccessRewrites.KeptCapabilities | control/internal/httpapi/signed_read_issuer.go:171-177 | keeps exactly the capabilities the ceiling allows |
| AccessRewrites.KeepCapabilities | control/internal/httpapi/signed_read_issuer.go:171-177 | the loop keeps them in order |
| AccessRewrites.IsDeny | control/internal/httpapi/signed_read_issuer.go:165-168 | true exactly for rules that deny |
| AccessRewrites.LowerToCeiling | control/internal/httpapi/signed_read_issuer.go:162-186 | compacts the rules in the same array to those the ceiling leaves |
| AccessRewrites.CeilingHolds | control/internal/httpapi/signed_read_issuer.go:162-186 | a rule is left exactly if it is some rule lowered |
| AccessRewrites.CeilingKeepsDecision | control/internal/httpapi/signed_read_issuer.go:152-187 | inside the ceiling the whole decision is unchanged, for every resource and entry |
| AccessRewrites.CeilingAllowsNothingOutside | control/internal/httpapi/signed_read_issuer.go:152-187 | outside it nothing is allowed |
| AccessRewrites.CeilingFaithfulExactly | control/internal/httpapi/signed_read_issuer.go:152-187 | both hold of every list of rules if and only if the ceiling has `write` together with create and update, or without either |
| AccessRewrites.AgentCeilingsAreFaithful | control/internal/httpapi/agent.go:60-70 | the ceilings an agent can be given are faithful |
| AccessRewrites.TypedDenies | control/internal/httpapi/signed_read_issuer.go:132-146 | keeps exactly the typed denies, in order |
| AccessRewrites.AdminRules | control/internal/httpapi/signed_read_issuer.go:128-151 | the built-in grant and the typed denies of every policy, and nothing else |
| AccessRewrites.DeniesGiven | control/internal/httpapi/signed_read_issuer.go:132-146 | the denies collected are exactly the typed ones of the policies |
| AccessRewrites.AdminMeaning | control/internal/httpapi/signed_read_issuer.go:128-151 | an administrator may read, list, create and update every directory of the mount and exactly the files no typed deny denies, and nothing else |
| AccessRewrites.MergeContexts | control/internal/httpapi/signed_transfer_issuer.go:41-53 | gives all rules of all parts exactly if they fit and are valid |
| AccessRewrites.ConcatAdds | control/internal/httpapi/signed_transfer_issuer.go:41-53 | parts are joined in their order, nothing left out |
| AccessRewrites.MergedDecision | control/internal/httpapi/signed_transfer_issuer.go:41-53 | the decision of a merged context is the join over its parts |
| StrictJson.Decoder.constructor | control/internal/filetypes/context.go:67-68 | starts at the first token |
| StrictJson.Decoder.ReadValue | control/internal/filetypes/context.go:69-112 | over the tokens of any tree, consumes exactly that tree, and succeeds if and only if it fits the depth left and names are distinct in every object |
| StrictJson.Decoder.ReadItems | control/internal/filetypes/context.go:100-105 | the same for the items of an array |
| StrictJson.Decoder.ReadMembers | control/internal/filetypes/context.go:83-99 | the same for the members of an object, names compared ignoring case |
| StrictJson.Decoder.Validate | control/internal/filetypes/context.go:67-119 | accepts exactly one tree nested at most 64 deep with distinct names and nothing after it |
| StrictJson.WithinExactly | control/internal/filetypes/context.go:69-72 | a tree is within its levels if and only if nothing is found inside it deeper |
| StrictJson.UniqueExactly | control/internal/filetypes/context.go:83-99 | names are distinct if and only if no object found inside, however deep, repeats one ignoring case |
| AgentLimiter.Agents.constructor | control/internal/httpapi/agent.go:163-176 | no buckets at first |
| AgentLimiter.Agents.EvictIdle | control/internal/httpapi/agent.go:166-170 | removes exactly the buckets idle for five minutes with nothing under way |
| AgentLimiter.Agents.Serve | control/internal/httpapi/agent.go:163-210 | the table and the verdict of an admission, with every refusal |
| AgentLimiter.VerdictExactly | control/internal/httpapi/agent.go:163-210 | when each verdict is given: no capacity, limited, no quota, admitted |
| AgentLimiter.BucketAfter | control/internal/httpapi/agent.go:175-207 | what each verdict leaves of the bucket |
| AgentLimiter.EvictedExactly | control/internal/httpapi/agent.go:166-170 | which buckets stay |
| AgentLimiter.Agents.Finish | control/internal/httpapi/agent.go:234-238 | a request that ends leaves its bucket |
| AgentLimiter.EndedExactly | control/internal/httpapi/agent.go:234-238 | a request that ends leaves its own bucket and nothing else changes |
| AgentLimiter.UnderWay | control/internal/httpapi/agent.go:163-210 | only an admission adds to the requests under way, and never beyond the cap it was made with |
| AgentRate.EvictionGainsNothing | control/internal/httpapi/agent.go:166-170 | what a new bucket can hold after an idle one was evicted the old one would have held, if it refills in that time |
| AgentRate.OwnRequest | control/internal/httpapi/agent.go:179-207 | a request finds what the rate gave up to its clock, at most a burst, and spends one token if it is admitted |
| AgentRate.OwnKeepsSound | control/internal/httpapi/agent.go:179-207 | an admission takes one off what a token can still be admitted, whatever the clock says, and a bucket is in debt by no more than the skew |
| AgentRate.OtherKeepsSound | control/internal/httpapi/agent.go:163-170 | nothing another token does, an eviction included, adds to it |
| AgentRate.AdmissionsBounded | control/internal/httpapi/agent.go:163-210 | in any stretch of a run with requests at most some skew out of order, a token of unchanged limits is admitted at most its burst plus its rate times the time, across evictions |
| AgentRate.RunKeepsSound | control/internal/httpapi/agent.go:163-210 | every stretch of such a run starts from what that asks of the bucket |
| AgentRate.BoundedInAnyOrder | control/internal/httpapi/agent.go:163-210 | the same in any order of the clocks its requests read before the lock, while its bucket is not evicted |
| AgentLimiter.ActiveBounded | control/internal/httpapi/agent.go:180-186 | however its limits are changed meanwhile, a token never has more requests under way than the largest cap it was admitted with |
| AgentLimiter.RetrySuffices | control/internal/httpapi/agent.go:180-190 | after a refusal for rate, waiting the seconds told finds a token |
| AgentLimiter.RetryIsLeast | control/internal/httpapi/agent.go:180-190 | and one second less does not, unless the least told is one |
| AgentBurst.BoundExceeded | control/internal/httpapi/agent.go:163-186 | for all other limits and skews some run exceeds the bound |
| AgentQuota.Usage.constructor | control/internal/store/agent_usage.go:15-24 | nothing charged at first |
| AgentQuota.Usage.Reserve | control/internal/store/agent_usage.go:15-51 | refuses exactly below 1024 left; otherwise charges the smaller of what is asked and what is left |
| AgentQuota.Usage.Count | control/internal/httpapi/agent.go:352-353 | bytes written are counted within the budget |
| AgentQuota.Usage.Refund | control/internal/store/agent_usage.go:53-59 | gives back exactly what was not written |
| AgentQuota.ChargeCoversWriting | control/internal/httpapi/agent.go:234-247 | what was written is at most what is charged and that at most the daily bytes; once all is refunded the two are equal |
| AgentQuota.Writer.constructor | control/internal/httpapi/agent.go:232 | nothing written at first |
| AgentQuota.Writer.Write | control/internal/httpapi/agent.go:332-361 | writes exactly what fits the budget and the connection takes; an error exactly if something was cut, cancelled or failed, with its reason |
| AgentQuota.WriteAll | control/internal/httpapi/agent.go:332-361 | whatever is written of a response, what is counted is what the writer wrote |
| AgentQuota.Respond | control/internal/httpapi/agent.go:192-247 | a whole response: refused exactly below 1024 left, charged in the end what the writer wrote, or its budget if the refund is lost |
| AuditChain.Verify | scripts/verify-audit-ndjson.py:16-35 | the loop accepts exactly a chain of events, and counts those before the first that does not continue it |
| AuditChain.AcceptedExactly | scripts/verify-audit-ndjson.py:16-35 | an export is accepted if and only if every line names the hash before it, hashes to its own, has a later id and says field by field what its chain data says |
| AuditChain.CheckedInParts | scripts/verify-audit-ndjson.py:21-35 | checking two exports one after the other is checking them as one |
| AuditChain.LaterIds | scripts/verify-audit-ndjson.py:29-30 | ids of an accepted export only grow |
| AuditChain.SameEndSameEvents | scripts/verify-audit-ndjson.py:16-35 | two accepted exports from one checkpoint that end in the same hash hold the same events if and only if they are of one length; a longer one comes back to the checkpoint's hash |
| AuditChain.LastHashFixesExport | scripts/verify-audit-ndjson.py:16-35 | so if neither comes back to it they hold the same events, whatever the checkpoint |
| AuditChain.HonestNeverReturns | scripts/verify-audit-ndjson.py:17-30 | with a checkpoint hash that names its event, or none, no export comes back |
| AuditChain.LastHashFixesEvents | scripts/verify-audit-ndjson.py:16-35 | under a hash with no collision and no cycle, two accepted exports from any one checkpoint that end in the same hash hold the same events |
| AuditChain.CheckpointMatters | scripts/verify-audit-ndjson.py:17-19 | without a collision but with a cycle they need not: what an ideal hash has to rule out beyond collisions |
| TransferSelection.SortSorts | control/internal/httpapi/server.go:4039 | the selection is sorted |
| TransferSelection.SelectPaths | control/internal/httpapi/server.go:4020-4046 | accepts exactly a selection of allowed size whose sorted paths do not clash with their neighbours, and gives those paths in order; an error names what failed first |
| TransferSelection.NeighboursMissExactly | control/internal/httpapi/server.go:4039-4045 | in an accepted selection no path equals or contains another if and only if none that is followed by one going on with a character before the separator contains a later one |
| TransferSelection.NeighboursSuffice | control/internal/httpapi/server.go:4039-4045 | if no selected path goes on from another with a character before the separator, no path of an accepted selection equals or contains another |
| TransferSelection.NeighboursMissOverlap | control/internal/httpapi/server.go:4039-4045 | any character before the separator lets an overlap through |
| TransferSelection.RelativeRoundTrip | control/internal/httpapi/server.go:4201-4217 | a path translates exactly if it lies in the root, and joined to it again is the path |
| TransferSelection.GrantAllowsPath | control/internal/httpapi/server.go:4111-4132 | true exactly if every pattern is plain and well-formed and none matches a part of the path |
| TransferSelection.SplitExactly | control/internal/httpapi/server.go:4111-4132 | the parts of a path hold no separator and together are the path |
| TransferSelection.UnexcludedExactly | control/internal/httpapi/server.go:4111-4132 | what the patterns of a grant have to be and may not match |
| TransferSelection.SourceGrantAllows | control/internal/httpapi/server.go:4092-4109 | true exactly for a grant that sends, reads and covers every path, and deletes if the transfer moves |
| TransferSelection.SourceGrantExactly | control/internal/httpapi/server.go:4092-4109 | what a source grant has to be |
| TransferSelection.ChooseSource | control/internal/httpapi/server.go:4161-4180 | the first compatible grant with the longest root, none exactly if none is compatible |
| TransferSelection.ChooseDestination | control/internal/httpapi/server.go:4147-4199 | the same for the destination |
| TransferSelection.DestinationGrantExactly | control/internal/httpapi/server.go:4147-4199 | what a destination grant has to be |
| TransferSelection.BestIsOne | control/internal/httpapi/server.go:4161-4199 | at most one grant is the choice |
| TransferSelection.FileScope | control/internal/httpapi/server.go:4409-4432 | a path that walks upward has no scope; any other gives the base and its named segments |
| TransferSelection.NamedAdds | control/internal/httpapi/server.go:4409-4432 | empty segments and dots are left out, the others kept in order |

## Left out

- PkiManager.Manager.RetireRoot: asks that the newest intermediate is not the retired root's, which `PkiInvariant.NextKeepsInv` shows of every reachable store; the other methods ask for the shape of the store, shown there too.
- PkiTiming.PunctualRunsAreAdoptable: says nothing of passes more than 23 days apart; what then holds is `PkiRuns.NextBundleAdoptable`.
- Pairing.Connection.EstablishConnection: the reads at its start are one call, and nothing else changes the two nodes while it runs.
- ManagedNodes.SyncManagedNodes: one view of the authority serves the whole pass, and saving a record does not fail; in `ManagedRuns` the view may change between nodes.
- JobLeaseRenewal.Renewal.Renew: other deliveries reach the node only between reading its status and acting on it; `JobLeaseRuns` lets them arrive at any step.
- PkiBundle.Validate: keys, ends and serials are values, so the text form of a key id, an unset end and the text form of a serial are not looked at.
- ManagedRuns.MoveKeeps: a revocation of a run names a serial that was given out, as the Control Tower asks (control/internal/httpapi/crypto_lifecycle.go:83).
- ManagedSafety.NoNodeCutOff: a node enrolls once, its certificate is issued and its bundle read in one moment, and a promotion looks at the records and saves in one moment.
- ManagedSafety.RetirementStrandsNobody: as for `ManagedSafety.NoNodeCutOff`; an enrollment that replaces the record of a listed node while the pass runs is not modelled, and the pass looks at one view when it decides.
- ManagedSafety.OnePassFinishes: a node whose certificate is revoked is not spoken to in that pass, and nothing else happens while it runs.
- AgentRate.AdmissionsBounded: of a stretch in which the token's limits are not changed.
- AgentLimiter.Agents.Serve: tokens are real numbers, not floats, and the checks of the credential, address and groups before it are not modelled.
- FileTypes.ExtensionsOk: lower case and letters are those of ASCII, and values are given without surrounding space.
- FileTypes.NamesOk: as for extensions.
- FileTypes.Validate: as for extensions.
- FileTypes.CompileSelector: file names are compared in ASCII lower case.
- AccessContext.Compile: the size of the encoded context and text that is not valid UTF-8 are not modelled.
- AccessRewrites.LowerToCeiling: one policy's rules at a time; the loop over policies repeats it, and `JoinedRulesJoinDecisions` puts the decisions together.
- TransferSelection.SelectPaths: paths are given already cleaned, and the library sort is an insertion sort.
- StrictJson.Decoder.Validate: the tokens are those of a well-formed tree, as the decoder of the standard library gives them, perhaps with more after it.
- The Control Tower's own HTTPS and client certificates, the inventory and pins: they follow from the pass and would only add easy members.
- Sealing, backing up and importing the root key beyond its presence in the database: cryptography and files.
- HTTP handlers, streaming, cookies, error texts, metrics and audit writing: plumbing.
- X.509, Ed25519, AES and hashing: taken as ideal.
- Approvals, enrollment decisions, shares and the building of a mount's context from policies: separate features, or easy members beside the ones here.
- Workers and batches of the renewal loop: each link is renewed by one attempt at a time.
- Clocks that differ between parties or run backwards, beyond the skew of an agent's requests.
