# A threshold certificate authority: ROAST coordinator, FROST signers and their wire formats

The system signs SSH certificates with a key that is split among n signers, any t of which
suffice. A coordinator runs distributed key generation, share refresh and, in sign mode, the
ROAST wrapper around FROST: it collects commitments, opens sessions of t signers, aggregates
their shares, drops signers that misbehave and mints certificates one after another.

This project models that behaviour in Dafny and proves what the protocols promise over whole
runs. It has three layers.

* **Coordinator in sign mode.** `Roast` holds one function per handler over the signer table, the
  64-slot session table, the blacklist, the strikes and the minting latches. The clock, the outcome
  of `assemble`, the verdict of `aggregate` and the outcome of `mint` are parameters of an event, so
  every theorem is over all of them. `RoastCoordinator` and `RoastLoops` are the imperative
  handlers; each is proved to compute the corresponding function.
* **Signers, and coordinator with signers.** `SignerModel`/`SignerNode` are the signer in sign mode;
  `Agreement` runs honest signers against an arbitrary coordinator; `SignSystem`/`CommitCoherence` join
  the coordinator of `Roast` and the signers by FIFO channels, certificate after certificate. `Ceremony*` is
  key generation and refresh, n signers and the coordinator, under every interleaving.
* **Wire.** `Bundles`, `Framing`, `Hex`, `AssembleText` and `Base64` are the formats both sides rely on,
  across C and Rust; `Intervals` is the interval merging of the log analyser.

RSA signatures are ideal: a set of (signer, data, signature) triples that verify. For the commit
buffers of honest signers the only source of triples is the SIGN_REQ handler. `frost_commit`
returns values that this signer has not had before, or fails and leaves arbitrary bytes in the
commitment buffer; `frost_sign` fails without nonces.

Four models of the faults are used. In `FaultRun` the shares of honest signers arrive before the
deadline, nobody leaves a session that waits for it, and `aggregate` names a faulty member or
succeeds; nobody is obliged to commit. `PromptRun` adds that honest signers do their part: no
session times out before every honest signer has a commitment or a share stored, `assemble` works
and bundles fit a frame. Never committing is then a fault like any other. `RoamRun` is `PromptRun`
with one freedom more: faulty signers may leave and return whenever they like. `DutyRun` is `FaultRun`
with signatures: honest signers share in time for bundles all of whose entries verify, and for no
others. Upper bounds that do not need prompt signers are proved in the first, exact ones in the second.

Findings about the code:

* The project's own documentation promises an end within `n − t + 1` sessions. With f ≤ n faulty and
  otherwise prompt signers, and as long as nobody leaves a session that waits for it, the number of
  failed sessions per message takes exactly the values up to f if (f + 1) t ≤ n and up to
  f + min(f, n − t + 1) otherwise, but never more than the 64 slots (`CanSpoilIff`). Over those runs the
  documented bound holds if and only if f < n for t = 1 and 2 f ≤ n − t for t ≥ 2
  (`DocumentedBoundIff`). For n = 4, t = 2 two faulty signers spoil four sessions: two time out side by
  side, twice.
* A time-out strikes connected members only. So a faulty signer that joins a session, leaves before the
  deadline and comes back is never struck, and spoils one session after the other: for every n ≥ 2, every t
  and a single faulty signer there is a run with prompt honest signers in which all 64 sessions fail, nobody
  has a strike, the blacklist is empty and no failure flag is raised (`LeavingMembersExhaust`). When
  members may leave, the documented bound holds if and only if f = 0 (`RoamingBoundIff`), also for t = 1: the
  roamer's one-member sessions pile up before an honest commitment arrives.
* Sessions are not recycled within a message. Once 64 have failed nothing is signed any more, whatever
  arrives, and the failure flag is not raised either (`ExhaustedForever`). While nobody leaves a session
  that waits for it, this happens in some run with prompt honest signers exactly when n < (f + 1) t,
  2 f ≥ 64 and f + n − t + 1 ≥ 64 (`CanExhaustIff`, `ExhaustionThreshold`); when faulty signers may leave,
  exactly when f ≥ 1 (`RoamersCanExhaustIff`).
* The coordinator stores the signature of a commitment without verifying it. One faulty signer with a bad
  signature makes every honest member refuse the bundle, and it is they who are struck. Over all runs in which
  honest signers share in time for genuine bundles, an honest signer is struck if and only if a session with
  an honest member times out whose bundle has an entry that does not verify (`HonestStruckIff`); for every n and
  t ≥ 2 there is a run in which one faulty signer gets exactly the t − 1 honest members of its sessions
  blacklisted (`BadSignaturesBlacklistHonest`).
* A ceremony is declared finished after n key packages, no matter whose: one signer that sends its package n
  times suffices (`FinishedIff`). The announcement before it cannot be had that way: it needs a report of each
  signer (`AnnouncedIff`).
* Coherence of sessions can be lost in two steps only; each has its exact condition
  (`RegisterCoherentIff`, `UnknownCoherentIff`) and a run from start-up that shows what follows. Members
  that reconnect while their session waits pile up sessions of the same t signers, up to the whole table
  instead of n / t (`ReconnectingMembersPileUp`); after an unattributed failure two sessions wait for the same
  signers (`UnattributedFailureOverlaps`). The older session gets no share any more in any continuation, because
  session ids never come back (`RunLeft`), and strikes its members.
* A signer that reports that it has no key is out until it registers again, unless a session still waits for its
  share: then a share, even an empty one, makes it count again (`KeylessOutIff`). The first HELLO fixes n and t
  even if it is then refused for its certificate (`SizesFixed`).
* With `--mass-mint 0` the first signature still mints and the 64-bit counter wraps; conservation holds
  exactly for counts of at least 1 (`ConservedIffPositive`).
* A new message may be broadcast while answers to the last one are on their way. The links between
  coordinator and signers stay good if and only if no signer that the broadcast reaches has an old SIGN_REQ
  or a COMMIT on its way (`NewMessageIff`); then no bundle is refused, over all certificates
  (`NoBundleIsRefused`). Otherwise an old commitment that arrives next is taken for the new message, from
  every such state (`UnquietStoresStale`); in `StaleCommitIsRefused` an honest signer refuses the bundle it gets.
* An oversized payload is queued although the encoder refused it; the frame is then whatever the new
  buffer held. It arrives if and only if its payload fits, or the buffer happened to spell just this frame and
  the frame fits the receiver (`Sender.Send`, `DeliveredIff`).
* `assemble` refuses, among the bundles the coordinator can print, exactly those with an empty message, an
  empty commitment, a commitment that does not deserialize, or id 0 (`ParsesWhatIsPrinted`).

## Model

| member | source | states |
|---|---|---|
| `CeremonyGuarantees.RefreshBarrier` | frost_signer.c:906-913 | in every interleaving, a signer whose next frame is REFRESH_FINALIZE holds exactly one package of either round from each peer, and finalizes, for the first time |
| `CeremonyGuarantees.FinalizeNeverRefused` | frost_coordinator.c:763-776 | the count check of REFRESH_FINALIZE never fires: finalizations equal announcements seen, at most one |
| `CeremonyGuarantees.Round1BeforeRound2` | frost_signer.c:490-521 | when a round-2 package reaches a signer it has every round-1 package and has run part 2 once |
| `CeremonyGuarantees.PartsRunOnce` | frost_signer.c:597-664 | parts 2 and 3 run at most once, part 3 after part 2, and each exactly on one package from every peer |
| `CeremonyGuarantees.AnnouncedOnce` | frost_coordinator.c:696-709 | DKG_DONE / REFRESH_FINALIZE is broadcast at most once, and "done" implies that it was |
| `CeremonyGuarantees.NeverStuck` | frost_coordinator.c:635-709 | if all are registered and all channels are empty, the ceremony is finished at the coordinator and at every signer |
| `CeremonyTermination.StepWorks` | frost_coordinator.c:635-709 | every registration or delivery that can happen lowers the work left (frames in channels and frames still to be sent) by exactly one |
| `CeremonyTermination.CeremonyTerminates` | frost_coordinator.c:1390-1585 | in every interleaving at most n + n (3 n + 2) events take effect (n more in refresh), exactly so many when the channels are empty, and then the ceremony is finished everywhere |
| `CeremonyTermination.AlwaysProgress` | frost_coordinator.c:635-709 | until then some event can take effect |
| `CeremonyRobust.BroadcastsOnce` | frost_coordinator.c:635-709 | whatever frames the signers send, in any order and number: START, the relay of all round-1 packages and the announcement are each made at most once |
| `CeremonyRobust.AnnouncedIff` | frost_coordinator.c:1414-1420 | whatever the signers send: the announcement is made if and only if each of the n has reported its second round |
| `CeremonyRobust.FinishedIff` | frost_coordinator.c:1463-1471 | whatever the signers send: the ceremony counts as finished if and only if n key packages came from registered signers, no matter whose |
| `CeremonyRobust.SignerExactly` | frost_signer.c:490-521 | whatever verified packages are relayed to a signer: it keeps the first 64 of either round, starts part 2 and part 3 with the (n - 1)-th package and again with each further one, and finalizes only on exactly n - 1 |
| `CeremonySteps.RunKeeps` | frost_coordinator.c:1390-1585 | where every package is: each exists once, in a channel or at its addressee, in every reachable state |
| `CeremonyHandlers.CeremonyCoordinator.Register` | frost_coordinator.c:635-651 | registration and the start of the ceremony, state and queues, as the step function says |
| `CeremonyHandlers.CeremonyCoordinator.HandleRound1` | frost_coordinator.c:1390-1400 | a round-1 package: stored, counted, and all relayed when complete |
| `CeremonyHandlers.CeremonyCoordinator.CheckR1Complete` | frost_coordinator.c:683-694 | the completion check of round 1 and the relays in list order |
| `CeremonyHandlers.CeremonyCoordinator.HandleRound2` | frost_coordinator.c:668-681 | a round-2 package goes to its addressee only |
| `CeremonyHandlers.CeremonyCoordinator.HandleR2Complete` | frost_coordinator.c:1414-1420 | a completion notice counts once |
| `CeremonyHandlers.CeremonyCoordinator.CheckR2Complete` | frost_coordinator.c:696-709 | the completion check of round 2 and the announcement |
| `CeremonyHandlers.CeremonyCoordinator.HandleFinished` | frost_coordinator.c:1463-1522 | the n-th key package ends the ceremony |
| `CeremonyHandlers.CountMarked` | frost_coordinator.c:683-690 | the counting loop gives the number of signers with the mark |
| `CeremonyHandlers.RelayAll` | frost_coordinator.c:653-666 | every signer is queued all packages but its own, in list order |
| `CeremonyHandlers.SignerCeremony.HandleStart` | frost_signer.c:460-483 | START: part 1 and the signer's own round-1 package |
| `CeremonyHandlers.SignerCeremony.HandleRelayR1` | frost_signer.c:743-842 | a round-1 package at the signer, and part 2 with its sends on the last one |
| `CeremonyHandlers.SignerCeremony.HandleRelayR2` | frost_signer.c:597-694 | a round-2 package at the signer, and part 3 with its notices on the last one |
| `CeremonyHandlers.SignerCeremony.HandleAllDone` | frost_signer.c:906-953 | the announcement at the signer, with the count check of refresh |
| `RoastInvariant.RunKeeps` | frost_coordinator.c:809-836 | over all runs: used slots form a prefix with consecutive ids, sessions have t distinct members, the share counter covers the filled places, the blacklist is duplicate-free, two strikes imply blacklisted |
| `RoastExclusion.ExclusionIsPermanent` | frost_coordinator.c:795-807 | a blacklisted id stays blacklisted over every run, and no session formed afterwards contains it |
| `RoastExclusion.BlacklistFits` | frost_coordinator.c:802-807 | distinct ids of 1..64 never exceed the capacity, so nobody is dropped for lack of room |
| `RoastExclusion.TwoStrikesExclude` | frost_coordinator.c:1344-1351 | from the state that records two strikes on, the id is excluded in every continuation |
| `RoastExclusion.RoutableIff` | frost_coordinator.c:1646-1660 | a share is stored if and only if the sender's session id names a waiting session it belongs to |
| `RoastExclusion.ZeroIdNeverStores` | frost_coordinator.c:824-829 | a signer outside any session never stores a share |
| `RoastExclusion.ExpiredHasSilentMember` | frost_coordinator.c:1290-1326 | a session that expires has a member without a share |
| `RoastExclusion.RunCounts` | frost_coordinator.c:1661-1663 | with one non-empty share per bundle the counter equals the number of filled places, over all runs |
| `RoastExclusion.AggregateGetsEveryMember` | frost_coordinator.c:1157-1164 | then aggregate is fed exactly one line per member, in member order |
| `RoastHistory.StepStepped` | frost_coordinator.c:1646-1663 | what any event does to a slot: the place of the sender gets the payload of a routed share, the counter goes up by one, no other place, member, bundle or deadline changes; a new session starts empty, ten seconds before its deadline |
| `RoastHistory.RunRecorded` | frost_coordinator.c:1049-1060 | over every run: each place holds, byte for byte, the payload of the last share that its member sent to this session, the counter is the number of shares sent to it, and the deadline is ten seconds after the event that formed it |
| `RoastHistory.LinesWereSent` | frost_coordinator.c:1157-1164 | over every run: a line of aggregate's input is the last payload that this member sent to this session, and every member that sent one has its line |
| `RoastFate.TickFailsIff` | frost_coordinator.c:1290-1300 | the timer fails a waiting session if and only if its deadline has come, and otherwise leaves it exactly as it was |
| `RoastFate.EarlyTick` | frost_coordinator.c:1294-1298 | before the first deadline the timer changes nothing in the whole state |
| `RoastFate.TimesOutIff` | frost_coordinator.c:1049-1051 | over every run: a session times out at a tick if and only if ten seconds have passed since the event that formed it |
| `RoastFate.SessionFate` | frost_coordinator.c:1136-1284 | what becomes of a waiting session under any event, exactly: failed by its deadline, closed by the share that makes it complete, cleared by the next message, else still waiting |
| `RoastQuorum.RemainingIsUsable` | frost_coordinator.c:859-867 | the counting loop gives the number of connected signers that are not blacklisted and have a key |
| `RoastQuorum.FlagIff` | frost_coordinator.c:868-876 | after any event the failure flag is up if and only if a culprit was just named and fewer than t such signers are left, or it was up and no culprit was named |
| `RoastQuorum.DoneIff` | frost_coordinator.c:1266-1279 | after any event the message is done if and only if it was just signed, or failed without a culprit with fewer than t such signers left, or was done before and no new one started |
| `RoastLedger.StrikesExactly` | frost_coordinator.c:1326-1348 | strikes after any event: one more for each session that times out on the empty place of a connected member, and nothing else |
| `RoastLedger.BlacklistIff` | frost_coordinator.c:1088-1110 | the blacklist after any event: the named culprit, or all members when nobody is named, or whoever has two strikes after a time-out, and nobody else |
| `RoastIdentity.HelloIff` | frost_coordinator.c:2125-2214 | a HELLO is admitted if and only if it comes under the certificate of the id it claims, with possible sizes that agree with those in force, for an id that nobody holds; then the newcomer heads the list with HELLO_ACK and SIGN_REQ queued, else the list is unchanged |
| `RoastIdentity.HelloRefused` | frost_coordinator.c:2147-2165 | the cases in which the list stays as it was |
| `RoastIdentity.SizesFixed` | frost_coordinator.c:2130-2137 | n and t are those of the first HELLO with possible sizes, admitted or not, and never change |
| `RoastIdentity.ConnectedMeansIdentified` | frost_coordinator.c:2139-2192 | over every run: a connected id said HELLO in this run under its own certificate, with the n and t in force, when nobody held that id, and has been connected since |
| `RoastReplies.StrayCommit` | frost_coordinator.c:1601-1617 | a COMMIT that was not asked for, is too long or has no signature of the right length changes nothing |
| `RoastReplies.AskedCommit` | frost_coordinator.c:1619-1625 | one that was asked for is stored with its signature as it came, and no other signer's is touched |
| `RoastReplies.LoadFailIs` | frost_coordinator.c:1589-1594 | SHARE_LOAD_FAIL marks its sender as without key and changes nothing else |
| `RoastReplies.KeylessOutIff` | frost_coordinator.c:1589-1594 | such a signer is neither counted nor chosen in any continuation without a new HELLO of its id, if and only if no session waits for its share |
| `RoastRecords.AbortRecord` | frost_coordinator.c:1096-1124 | after a named failure: the culprit is marked, every other member is asked again without commitment and session, everyone else keeps its record or joins a session formed at once |
| `RoastRecords.UnnamedRecord` | frost_coordinator.c:1255-1283 | after an unattributed failure: all members are marked, everyone else that is neither excluded nor without key is asked again, the others keep their records |
| `RoastRecords.SignedRecord` | frost_coordinator.c:1209-1226 | after a signature: the sender's share is noted and CERT_OUTPUT queued to everyone if a certificate was written, nothing else |
| `RoastRecords.NotedRecord` | frost_coordinator.c:1646-1663 | a share that closes nothing is noted with its sender if it was routed, and touches no record otherwise |
| `RoastRecords.NextRecord` | frost_coordinator.c:842-854 | a new message: exactly the signers that are neither excluded nor without key are asked for it |
| `RoastRecords.TimeOutRecord` | frost_coordinator.c:1326-1368 | after a time-out, in coherent states: a member that sent its share is asked again, one that did not is asked again as a suspect, or marked if it has two strikes by then |
| `RoastRecords.BystanderRecord` | frost_coordinator.c:1290-1376 | and everyone in no session that timed out keeps its record, or joins a session formed at the same tick |
| `RoastSelection.SelectsWheneverPossible` | frost_coordinator.c:898-929 | t members are found if and only if t signers are eligible |
| `RoastSelection.ChoosesFewestSuspects` | frost_coordinator.c:891-929 | no eligible t-subset has fewer suspects than the chosen one |
| `RoastSelection.DeferralNeverBlocks` | frost_coordinator.c:933-939 | the `num_signers` test never defers a selectable session |
| `RoastSelection.FormsExactlyWhen` | frost_coordinator.c:941-1046 | when a session starts, exactly; otherwise the state is unchanged |
| `RoastSelection.BundleIsWellFormed` | frost_coordinator.c:979-1004 | the bundle of the chosen signers respects every size limit |
| `RoastMinting.MintingConserves` | frost_coordinator.c:495-497 | minted plus to-mint stays m, no underflow, at most one completed session per message, serials strictly increase |
| `RoastMinting.ZeroToMintWraps` | frost_coordinator.c:495-497 | with nothing to mint, a run in which the counter wraps |
| `RoastMinting.ConservedIffPositive` | frost_coordinator.c:1922-1930 | conservation over all runs if and only if m ≥ 1 |
| `RoastRounds.BooksExactly` | frost_coordinator.c:1209-1217 | after any event: a certificate with the current serial is written if and only if a session closed with a signature and `mint` worked; the serial goes up by one if and only if the next message starts |
| `RoastRounds.SerialCountsRounds` | frost_coordinator.c:1922-1930 | over every run the serial is the first one plus the number of messages started since |
| `RoastRounds.NoticesMatchCertificates` | frost_coordinator.c:1222-1226 | over every run: while a signer stays connected it is queued one CERT_OUTPUT for each certificate written, and none otherwise |
| `RoastCoherence.RunCoherent` | frost_coordinator.c:842-854 | over runs that avoid the two exceptions, waiting sessions are disjoint and their connected members point back to them |
| `RoastCoherence.AtMostNOverT` | frost_coordinator.c:816-822 | hence at most n / t sessions wait at once |
| `RoastCoherence.RegisterCoherentIff` | frost_coordinator.c:2203-2214 | a registration keeps coherence if and only if no waiting session counts on that id |
| `RoastCoherence.UnknownCoherentIff` | frost_coordinator.c:1248-1284 | the unattributed failure keeps coherence if and only if its broadcast reaches no member of another waiting session |
| `RoastIncoherence.ReconnectingMembersPileUp` | frost_coordinator.c:2203-2214 | for every n, t and k ≤ 64, a run in which signers only commit and reconnect and k sessions wait for the same members; all but the last get no share in any continuation and strike each member on time-out |
| `RoastDeserted.RunLeft` | frost_coordinator.c:1646-1663 | a waiting session that no connected member points to gets no share in any continuation, whoever reconnects: session ids never come back |
| `RoastDeserted.IsDeserted` | frost_coordinator.c:824-836 | when a waiting session is in that state: no member that is connected has its id |
| `RoastIncoherence.UnattributedFailureOverlaps` | frost_coordinator.c:1248-1284 | for every n and t with 2 t ≤ n, a run in which an unattributed failure leads to two waiting sessions of the same members |
| `RoastTermination.EveryFailureIsPaid` | frost_coordinator.c:1344-1362 | every failed session strictly lowers the strikes left to faulty signers; no honest signer is struck or blacklisted |
| `RoastTermination.FailuresBounded` | frost_coordinator.c:160-172 | failures over a run are bounded by the potential at its start |
| `RoastTermination.AtMostTwoFailuresPerFaultySigner` | frost_coordinator.c:1088-1130 | at most two sessions fail per faulty signer, over every run |
| `RoastTermination.HonestQuorumNeverFails` | frost_coordinator.c:859-876 | over every run: if t honest signers with a key are connected after each share that is handled, the coordinator never gives up |
| `RoastPrompt.RunPrompt` | frost_coordinator.c:1596-1633 | over every run with prompt honest signers: while a slot is free fewer than t commitments lie idle, and no honest signer is struck or blacklisted |
| `RoastProgress.NeverIdle` | frost_coordinator.c:1369-1376 | while fewer than 64 sessions can fail: whenever the honest signers, t or more, have answered, the message is signed or a session waits |
| `RoastProgress.AnsweredMeansSigned` | frost_coordinator.c:882-929 | with (f + 1) t ≤ n, over every such run: once all honest signers have answered, the message is signed |
| `RoastProgress.AtMostOneFailurePerFaultySigner` | frost_coordinator.c:1088-1130 | with (f + 1) t ≤ n at most one session fails per faulty signer and message |
| `RoastProgress.ExhaustedForever` | frost_coordinator.c:809-814 | with a full table of failures nothing is signed and no flag raised in any continuation |
| `RoastProgress.FewFaultsNeverExhaust` | frost_coordinator.c:945-950 | with 2 f < 64 the table never fills with failures while nobody leaves a session that waits for it |
| `RoastBatches.TimeOut` | frost_coordinator.c:1290-1376 | from any reached state with sessions parked side by side: one sweep retires them all, strikes the silent members only and leaves every honest signer asked or committed |
| `RoastTightness.FailuresReached` | frost_coordinator.c:1326-1362 | for every n, t, f ≤ n and every number of failures up to f if (f + 1) t ≤ n, or up to f + min(f, n − t + 1), at most 64: a run with prompt honest signers, in which nobody leaves a session that waits for it, where exactly that many sessions fail and none succeeds |
| `RoastTightness.CanSpoilIff` | frost_coordinator.c:1290-1376 | the possible numbers of failed sessions per message, exactly, for every f ≤ n, while nobody leaves a session that waits for it |
| `RoastTightness.DocumentedBoundIff` | README.md:60 | the documented bound holds over all runs with at most f faulty and otherwise prompt signers, in which nobody leaves a session that waits for it, if and only if f < n (t = 1) or 2 f ≤ n − t (t ≥ 2), for every n, t and f |
| `RoastTightness.CanExhaustIff` | frost_coordinator.c:945-950 | some such run with f ≤ n faulty signers fills the table with failures if and only if the exact maximum reaches 64 |
| `RoastTightness.ExhaustionThreshold` | frost_coordinator.c:945-950 | which is so if and only if n < (f + 1) t, 2 f ≥ 64 and f + n − t + 1 ≥ 64 |
| `RoastCap.CrowdBound` | frost_coordinator.c:891-929 | f faulty signers out of n spoil at most f + (n − t + 1) sessions of a message, over every run of the fault model: a session needs t members that are not blacklisted |
| `RoastCrowd.CrowdFails` | frost_coordinator.c:1326-1362 | for f > n − t, where sessions need several faulty members: a run for every number of failures up to f + min(f, n − t + 1) |
| `RoastRoaming.LeavingMembersExhaust` | frost_coordinator.c:1326-1362 | for every n ≥ 2, t and faulty set with a signer of 1..n: a run with prompt honest signers in which that signer alone leaves and returns, all 64 sessions fail, nobody is struck or blacklisted and no flag is raised |
| `RoastRoaming.RoamingBoundIff` | frost_coordinator.c:600-614 | when faulty members may leave and return, the documented bound holds over all runs with at most f of them if and only if f = 0 |
| `RoastRoaming.RoamersCanExhaustIff` | frost_coordinator.c:945-950 | and some run fills the table with failures if and only if f ≥ 1 |
| `RoastRefusal.RefusesForged` | frost_signer.c:1125-1142 | a signer sends nothing for a bundle one of whose entries does not verify for its message |
| `RoastRefusal.HonestStruckIff` | frost_coordinator.c:1610-1625 | over every run in which honest signers sign their commitments and share in time for genuine bundles only: an honest signer is struck if and only if a session with an honest member timed out on a bundle that is not genuine |
| `RoastForgery.BadSignaturesBlacklistHonest` | frost_coordinator.c:1610-1625 | for every n and t ≥ 2, a run of that kind with one faulty signer whose signatures are bad, after which exactly the honest signers 2..t are blacklisted |
| `RoastLoops.Listed` | frost_coordinator.c:795-800 | the membership loop |
| `RoastLoops.BlacklistSigner` | frost_coordinator.c:802-807 | blacklisting appends at most once and within capacity |
| `RoastLoops.AllocSlot` | frost_coordinator.c:809-814 | the first empty slot |
| `RoastLoops.CountActive` | frost_coordinator.c:816-822 | the number of waiting sessions |
| `RoastLoops.FindSlot` | frost_coordinator.c:824-829 | the first slot with an id |
| `RoastLoops.SignerSlot` | frost_coordinator.c:831-836 | a member's place |
| `RoastLoops.CountRemaining` | frost_coordinator.c:859-867 | the signers neither blacklisted nor without key |
| `RoastLoops.BroadcastSignReq` | frost_coordinator.c:842-854 | the broadcast, signer by signer |
| `RoastLoops.PickReliable` | frost_coordinator.c:898-908 | pass 1 and the number of list nodes it touches |
| `RoastLoops.PickSuspects` | frost_coordinator.c:910-929 | pass 2, where the duplicate check never fires |
| `RoastLoops.BuildBundle` | frost_coordinator.c:979-1004 | the bundle of the chosen signers, or failure on an oversized field |
| `RoastLoops.MarkChosen` | frost_coordinator.c:1062-1072 | the chosen signers enter the session and get the bundle |
| `RoastLoops.ResetInnocent` | frost_coordinator.c:1096-1124 | the culprit is marked, every other member reset |
| `RoastLoops.BanishMembers` | frost_coordinator.c:1255-1265 | the whole session blacklisted |
| `RoastLoops.ShareLines` | frost_coordinator.c:1157-1165 | the share lines of aggregate's input |
| `RoastLoops.PenaliseMembers` | frost_coordinator.c:1326-1368 | the loop over the members of an expired session: resets, strikes, blacklisting |
| `RoastCoordinator.ChooseMembers` | frost_coordinator.c:891-929 | the two passes together give the selection |
| `RoastCoordinator.PrepareBundle` | frost_coordinator.c:979-1046 | bundle, assembly and packing succeed exactly when the session can start |
| `RoastCoordinator.Coordinator.TryFormSession` | frost_coordinator.c:882-1083 | forms a session or leaves the whole state unchanged |
| `RoastCoordinator.Coordinator.FailOnCulprit` | frost_coordinator.c:1088-1130 | identifiable abort |
| `RoastCoordinator.Coordinator.FailOnUnknown` | frost_coordinator.c:1248-1284 | the unattributed failure |
| `RoastCoordinator.Coordinator.CompleteSession` | frost_coordinator.c:1209-1232 | success, minting and the notices |
| `RoastCoordinator.Coordinator.TryAggregate` | frost_coordinator.c:1136-1284 | aggregation by verdict |
| `RoastCoordinator.Coordinator.ExpireSessions` | frost_coordinator.c:1290-1376 | the timer sweep over the table |
| `RoastCoordinator.Coordinator.HandleCommit` | frost_coordinator.c:1596-1633 | COMMIT |
| `RoastCoordinator.Coordinator.HandleShare` | frost_coordinator.c:1635-1672 | SIG_SHARE |
| `RoastCoordinator.Coordinator.HandleLoadFail` | frost_coordinator.c:1589-1594 | SHARE_LOAD_FAIL |
| `RoastCoordinator.Coordinator.HandleHello` | frost_coordinator.c:2119-2214 | HELLO: first one fixes n and t, later ones must agree, ids are unique |
| `RoastCoordinator.Coordinator.HandleDisconnect` | frost_coordinator.c:600-614 | removal of a signer |
| `RoastCoordinator.Coordinator.NextCertificate` | frost_coordinator.c:1922-1930 | the mass-mint step |
| `SignerModel.SignBufInjective` | frost_signer.c:256-267 | the length prefix makes the signed buffer injective in message and commitment |
| `SignerLinearity.NonceUsedOnce` | frost_signer.c:1200-1225 | over every frame sequence and failure pattern, no nonce is in two shares, and a share's nonce belongs to the commitment its bundle shows |
| `SignerLinearity.CommitmentSignedOnce` | frost_signer.c:1003-1041 | a commitment is signed once, with a message a SIGN_REQ carried |
| `SignerLinearity.TurnKeeps` | frost_signer.c:1547-1562 | each frame, with the precomputation after it, keeps the invariant of nonces and commitments |
| `SignerBundles.SendsIff` | frost_signer.c:1069-1226 | a turn sends a share if and only if the signer has key and nonces, the bundle unpacks, has exactly t entries under different ids, among them the own live commitment, carries the message asked for last, every entry verifies, and assembly and signing work; then exactly one |
| `SignerBundles.EveryShareSuits` | frost_signer.c:1075-1094 | over every frame sequence: each share was sent in a turn whose bundle had exactly t entries under pairwise different ids, t being the signer's at that turn, with its own commitment and the last requested message |
| `SignerAnswers.RequestAnswer` | frost_signer.c:969-1043 | what a SIGN_REQ is answered with, exactly: SHARE_LOAD_FAIL without a key that loads, else the commitment made ahead or a new one with its signature if the message and the signed buffer fit, else nothing |
| `SignerAnswers.AnsweredNode` | frost_signer.c:1003-1041 | after an answer the signer holds the message, the commitment it sent with its nonces, and none made ahead |
| `SignerAnswers.AheadServes` | frost_signer.c:1547-1562 | after a share in sign mode the next SIGN_REQ is answered with the commitment made ahead, whatever `frost_commit` does then |
| `SignerAnswers.AheadNeedsSignMode` | frost_signer.c:1547-1562 | over every frame sequence nothing is made ahead before sign mode is switched on |
| `SignerNode.BuildCommitSignBuf` | frost_signer.c:256-267 | fills the buffer with the signed form, or fails exactly when it is too small |
| `SignerNode.HasDuplicateId` | frost_signer.c:1083-1094 | the duplicate check |
| `SignerNode.SignerNode.VerifyEntries` | frost_signer.c:1112-1158 | accepts exactly when every entry verifies for the bundle's message and the own one is present and unaltered |
| `SignerNode.SignerNode.HandleSignReq` | frost_signer.c:969-1043 | SIGN_REQ |
| `SignerNode.SignerNode.HandleRelayCommit` | frost_signer.c:1050-1226 | RELAY_COMMIT with all its checks |
| `SignerNode.SignerNode.MakeAhead` | frost_signer.c:1547-1562 | the precomputation |
| `Agreement.MessageAgreement` | frost_signer.c:1097-1142 | against any coordinator: a share for a bundle implies that each entry of an honest signer was made and signed by it for exactly that message, requested from it, and for no other |
| `Agreement.NoCommitmentServesTwoMessages` | frost_signer.c:1016-1040 | shares of honest signers that rest on one honest commitment are over one message |
| `Agreement.AuthenticMeansSigned` | frost_signer.c:1125-1142 | a verified entry of an honest signer stands in its signing log |
| `SignerBundles.SharedMeansSuited` | frost_signer.c:1075-1094 | against any coordinator: whatever bundle an honest signer shared for was delivered to it when it had exactly the signer's t entries under different ids and the signer's own commitment |
| `CommitCoherence.StoredCommitIsLive` | frost_coordinator.c:1596-1625 | a COMMITTED signer's stored commitment is its live one, for a message of the run, and the current one unless it is blacklisted, with unused nonces |
| `CommitCoherence.NoBundleIsRefused` | frost_signer.c:1075-1175 | over all certificates, if new messages are only broadcast when nothing of the old one is on its way: a bundle that reaches a signer passes every check and finds nonces to sign with |
| `CommitCoherence.RunGood` | frost_coordinator.c:1062-1072 | the state of each signer's two channels in every run |
| `CommitCoherence.NewMessageIff` | frost_coordinator.c:1922-1930 | the broadcast of a new message keeps the links good if and only if no signer that it reaches has an old SIGN_REQ in its queue or a COMMIT on its way |
| `CommitCoherence.UnquietStoresStale` | frost_coordinator.c:1596-1625 | from every state the invariant allows: if a commitment of a reached signer is first to arrive after the broadcast of another message, it is stored for the new message and is not that signer's live one |
| `StaleCommit.StaleCommitIsRefused` | frost_coordinator.c:1922-1930 | a run from start-up with honest signers that ends with a bundle at the head of a signer's channel which that signer refuses |
| `Bundles.UnpackInvertsPack` | frost_common.h:431-474 | unpacking a packed bundle gives it back and stops where it ends |
| `Bundles.PackInvertsUnpack` | frost_common.h:431-474 | whatever is accepted re-packs to exactly the consumed prefix |
| `Bundles.PackInjective` | frost_common.h:387-429 | two bundles never share a wire form |
| `Bundles.WireMaxSuffices` | frost_common.h:381-385 | the fixed buffer always suffices |
| `Bundles.PackBundle` | frost_common.h:387-429 | writes exactly the wire form, or fails exactly when a limit is exceeded or it does not fit |
| `Bundles.UnpackBundle` | frost_common.h:431-474 | reads exactly as the parser says, within bounds |
| `Framing.EncodeFrame` | frost_common.h:263-285 | writes the frame, or refuses an oversized payload |
| `Framing.Receiver.Receive` | frost_signer.c:1506-1545 | one record into the buffer, and the frame it completes |
| `Framing.Receiver.TakeFrame` | frost_coordinator.c:2277-2290 | the completeness test with variable or fixed signature size |
| `Framing.Sender.Send` | frost_coordinator.c:508-524 | the encoded frame at the end of the queue, or, for an oversized payload, the buffer as it was |
| `Framing.DeliveredIff` | frost_coordinator.c:508-524 | for every frame, buffer content and split into records: the frame is delivered if and only if its payload fits, or the buffer spelled just this frame and it fits the receive buffer |
| `Framing.Sender.DrainOne` | frost_coordinator.c:548-571 | one record of the first frame leaves |
| `Framing.FeedIs` | frost_common.h:287-295 | a whole frame is recognised and comes back, a proper prefix never is |
| `Framing.ChannelIsFifo` | frost_signer.c:308-331 | for any frames and any split into non-empty records, exactly those frames are delivered, in order |
| `Framing.BufferNeverOverflows` | frost_coordinator.c:2265-2290 | the next record always fits the receive buffer, and room is always left |
| `Hex.BytesToHex` | frost_stubs.c:33-40 | writes the hexadecimal text |
| `Hex.HexToBytes` | frost_stubs.c:49-70 | decodes, or fails exactly on odd length, overflow or a bad digit |
| `Hex.HexRoundTrip` | frost_signer_core/main.rs:49-68 | either language reads back what either prints |
| `Hex.DecodesIff` | frost_stubs.c:49-70 | the C decoder succeeds if and only if the text without trailing line ends and spaces consists of an even number of hex digits that fit |
| `Hex.BytesSpell` | frost_signer_core/main.rs:49-68 | each decoded byte is what its two characters spell, in either case of letters; in Rust a plus sign counts as no digit |
| `Hex.RustDecodesIff` | frost_signer_core/main.rs:49-68 | the Rust decoder succeeds if and only if the trimmed text is an even number of hex digits, where a plus sign may be the first of a pair |
| `Hex.TrimIs` | frost_signer_core/main.rs:49-52 | trimming removes all white space at both ends and nothing else |
| `AssembleText.PrintBundle` | frost_stubs.c:710-726 | prints the protocol text within the fixed buffer |
| `AssembleText.TextNeverTruncated` | frost_stubs.c:715-726 | the buffer bound always suffices |
| `AssembleText.Assemble` | frost_signer_core/main.rs:732-757 | the line-by-line parser as a function of the text and of which commitments deserialize |
| `AssembleText.ReadEntries` | frost_signer_core/main.rs:745-757 | the loop that fills the map |
| `AssembleText.ParsesU16Iff` | frost_signer_core/main.rs:732-757 | a number is read if and only if the text is its decimal digits, below 65536, with any zeros and at most one plus sign before them |
| `AssembleText.ParsesWhatIsPrinted` | frost_signer_core/main.rs:732-757 | the parser gets back exactly message and id → commitment map, or refuses, with the exact condition, deserialization included |
| `AssembleText.PermutedBundlesAssembleAlike` | frost_stubs.c:691-709 | permuting the entries gives the same package inputs |
| `Base64.EncodeLoop` | frost_signer_core/main.rs:70-85 | the encoder's text |
| `Base64.DecodeLoop` | frost_coordinator.c:1709-1728 | the decoder's bytes or -1, in bounds |
| `Base64.DecodeInvertsEncode` | frost_coordinator.c:1695-1728 | the C decoder inverts the Rust encoder for whatever fits |
| `Base64.ForeignCountsAsZero` | frost_coordinator.c:1695-1707 | a character outside the alphabet is no error, it counts as the letter of value zero |
| `Base64.PatchedWithTheKey` | frost_coordinator.c:360-383 | the 32 bytes patched over the end of the TBS are the verifying key that `cmd_pubkey` laid out |
| `Base64.KeyBlobIff` | frost_signer_core/main.rs:701-713 | the blob is the one byte string that reads as the algorithm name and then the key, each with its length before it, and nothing more |
| `Intervals.MergeIntervals` | analyze_checkpoint_log.py:139-154 | sorted, strictly separated, same instants covered, total equal to the measure of the union and at most the naive sum |

## Left out

- Sockets, TLS handshakes, certificate loading, RSA and OAEP: only ideal signatures, ordered channels and records that stay within a frame are kept.
- The FROST and SSH libraries (polynomials, aggregation, refresh algebra, `cmd_tbs`, `cmd_mint`): oracles.
- Failures of `mkstemp` and `popen` around `assemble` and `aggregate`; a failed `prepare_tbs` in the mass-mint step, whose return value the code ignores: assumed not to happen.
- The comparison of public key packages at the end of a ceremony: it only logs.
- The 32-bit wrap-around of session ids and the 64-bit wrap-around of serials: unbounded here.
- The clock is read once per sweep and once per session in the code; an event carries one time for both.
- Signatures under other frame types with the same RSA key: that such a payload could spell a commit buffer is excluded by the ideal signature set.
- `get_signer_pubkey` for ids above 64, which indexes outside its table: verification of such entries is part of the ideal signature set.
- Commitments with a bad signature in `SignSystem`, whose faults are ignored frames and wrong shares: they are the subject of `RoastRefusal` and `RoastForgery`, where the verdicts name faulty members and nobody leaves a session that waits for it.
- The order in which part 2 hands out round-2 packages: sent here in the order of arrival of the round-1 packages.
- The exit path after the failure flag is raised: runs simply may continue.
- `memcpy` of a round-1 package, its encryption and its decryption: a package is named by its author and addressee.
- Argument parsing, key and certificate files, checkpoints, byte counters, reports and percentiles: plumbing, or easy claims.
- RoastTightness.DocumentedBoundIff: for messages of which t one-byte commitments still fit a frame (`Fits`), because with longer ones no session forms at all; with n and t given at start-up; over `PromptRun`, in which nobody leaves a session that waits for it (otherwise: `RoastRoaming.RoamingBoundIff`).
- RoastTightness.CanSpoilIff: over `PromptRun`; with members that leave, the exact set of numbers is not stated, only that all 64 can fail (`RoastRoaming.LeavingMembersExhaust`).
- RoastTightness.CanExhaustIff: over `PromptRun`; with members that leave, `RoastRoaming.RoamersCanExhaustIff` is the exact condition.
- RoastProgress.FewFaultsNeverExhaust: over `FaultRun`; it is false when a faulty member may leave (`RoastRoaming.LeavingMembersExhaust`).
- RoastTermination.AtMostTwoFailuresPerFaultySigner: under the fault model above, in which nobody leaves a session that waits for it.
- CommitCoherence.NoBundleIsRefused: without returning signers and without the unattributed failure, where it is false (`RegisterCoherentIff`, `UnknownCoherentIff`).
- CommitCoherence.NewMessageIff: the converse is on the links, and on the commitment that arrives first (`UnquietStoresStale`); that a refused bundle follows is shown by the run of `StaleCommit` only, because it needs t signers that still answer.
- Framing.ChannelIsFifo: for frames whose payload fits; after an oversized one the stream is whatever memory held (`DeliveredIff`).
