# Verification of the rendezvous server's protocols

A Dafny model of the stateful protocols of this RustDesk rendezvous server (hbbs) and relay (hbbr),
with proofs of what they promise. Each protocol is one module in one file. Where several tasks or
processes interleave, the module has a `State`, a `Step` for every lock acquisition, file-system call
or message, a total function `Next` (a step that is not enabled changes nothing) and `Run` over any
sequence of steps; the main results are lemmas about every run. Where the server updates a structure
in place, a class has the same fields and methods, and each method's contract ties the new state to
`Next` or states it outright. `dafny verify dfyconfig.toml` checks everything.

| file | models |
|---|---|
| `controller_gates.dfy` | the policy gates every session request passes |
| `relay_broker.dfy`, `relay_table.dfy`, `relay_grant.dfy` | hbbs recording requests and minting grants, hbbr pairing sockets |
| `relay_provenance.dfy` | both servers together: where every relayed session comes from |
| `device_claims.dfy` | pinned device keys, bindings, pending claims |
| `replay_guard.dfy`, `spray_limiter.dfy` | the two time-windowed guards |
| `access_revocation.dfy` | versioned permission saves, session eviction, termination stamps |
| `peer_cache.dfy` | the peer map in front of the peer table |
| `key_publication.dfy`, `key_rotation.dfy`, `rotation_overlap.dfy` | the signing key on disk, step by step |
| `relay_accounting.dfy`, `connection_history.dfy` | relayed bytes and the connection table |
| `push_registry.dfy` | proven identities of connections and pushes to peers |
| `ldap_filter.dfy`, `secret_masking.dfy`, `online_states.dfy`, `permission_mask.dfy`, `direct_endpoints.dfy` | encodings and what reads them back |
| `prelude.dfy`, `seqs.dfy`, `text.dfy` | shared result types, sequence and text operations |

## How the model reads the code

* Signatures are ideal: a grant verifies if and only if hbbs minted it and it has not expired. A
  nonce, a row id and a key pair are fresh when generated. Clocks are inputs.
* A request's claimed controller (id, uuid, token) and its proven one are taken as parsed; gates are
  read one after the other on the policy of that moment, which may change in between.
* Text is a sequence of Unicode code points. White space is the Unicode property, exactly; lower-casing
  is ASCII only. Lengths that the code counts in bytes are UTF-8 lengths.
* Numbers are unbounded except where the code saturates (`saturating_sub`, `saturating_add` of the
  permissions version) or parses a bounded width (ports).
* The choice a hash map makes (which of several oldest nonces to evict, the order of rows before they
  are sorted, which entry of a request wins) is a relation or a parameter.

## Where the code and its comments differ

The model follows the code. Each of these is a lemma with the exact condition, or a concrete run.

* The pending-relay entry is said to expire with the grant (`src/rendezvous_server.rs:880-884`); the
  lookup does not read the expiry, so an entry lives until some request is recorded after it
  (`RelayBroker.EntryLifetime`, `RelayBroker.WaitsIff`). A punch is recorded before it is pushed, so
  its grant can exist first (`RelayBroker.GrantCanPrecedePush`, exactly `RelayBroker.GrantsFollowPushesIff`);
  a relay request is pushed before it is recorded, so an immediate answer is lost
  (`RelayBroker.AnswerBeforeRecordIsLost`).
* A parked stream is meant to wait 30 seconds; an earlier stream's timer can end it sooner
  (`RelayTable.EarlyDropIff`, `RelayTable.EarlyDropHappens`). A grant pairs any number of times while it verifies
  (`RelayTable.ManyPairsUnderOneGrant`), and those sessions share a label, which overcharges the totals
  (`RelayAccounting.SharedLabelOvercharges`).
* A `Full` answer leaves every table within its cap unchanged (`DeviceClaims.RegisterChangesOneRow`), a
  table loaded above the cap not always (`DeviceClaims.FullKeepsTableIff`). A request decided before an approval is filed after it (`DeviceClaims.DecidedRequestOutlivesBinding`,
  exactly `DeviceClaims.AlwaysUnboundIff`).
* The replay guard lets a credential stamped ahead of the clock be used again after 300 seconds
  (`ReplayGuard.ReplayableIffStampedAhead`).
* The spray limiter's bound needs every failure to have passed the check at the time it is recorded;
  failures in flight together are unbounded (`SprayLimiter.InFlightFailuresAreUnbounded`), and at most
  k of them add k names per cooldown (`SprayLimiter.InFlightRateBound`).
* The permissions page reads map and version under two locks (`AccessRevocation.TwoReadsSafeIff`), and a
  login in flight across a revocation keeps its session (`AccessRevocation.LoginInFlightOutlivesRevocation`,
  exactly `AccessRevocation.CheckedAccessKeptIff`). So does one that had proven a device key before it
  was removed (`AccessRevocation.RemovedKeyStaysSilentIff`).
* A peer's status lives in the row and in the map, written one after the other: lookups and changes that
  cross leave the map that serves decisions wrong (`PeerCache.StaleReadHidesABlock`,
  `PeerCache.CrossedChangesDisagree`).
* Rotations take no lock and share the temporary name of their process: a success can put another
  rotation's key in service (`RotationOverlap.SuccessServesItsKeyIff`), and overlapping ones can lose keys
  in distinct seconds (`RotationOverlap.OverlapLosesNothingIff`).
* A read error is taken for a missing peer row or key file: a blocked peer is then unblocked until its
  status is set again (`PeerCache.FailingReadUnblocks`), and a leftover temporary name can truncate the
  key file (`KeyPublication.FailedReadCanTruncateTheKey`). Temporary names are taken to be distinct,
  which process ids are not across containers on one volume (`KeyPublication.SharedNameBreaksTheKey`,
  exactly `KeyPublication.KeptIffNoHarm`). `exists` answering no overwrites the key, and
  two rotations in one second lose the oldest (`KeyRotation.NothingLostIff`).
* A lowered history limit can be exceeded until its trim runs (`ConnectionHistory.LoweredLimitCanBeExceeded`,
  exactly `ConnectionHistory.AlwaysWithinIff`).
* The search filter's placeholders are replaced one after the other, so a name that contains a later one
  is searched for as another (`LdapFilter.UsernameHeldIff`, `LdapFilter.RawNameHeldIff`).

## Model

| member | source | states |
|---|---|---|
| `ControllerGates.ControllerGateExact` | src/nemo_management.rs:4704-4813 | A controller is let through if and only if it is resolved to a registered, unblocked machine with the claimed uuid (not needed with a device proof), outbound connections on and the target on its list. |
| `ControllerGates.RefusalNamesItsCause` | src/nemo_management.rs:4704-4813 | The refusal given is the one whose cause is present: no identity, two identities, unknown machine, unreadable policy, wrong uuid, blocked, outbound off, target not listed. |
| `ControllerGates.TargetAllowedExact` | src/peer.rs:255-265 | A target is allowed exactly if it is not blocked and, on a server for company devices only, is allowed outright; an unreadable status is no status. |
| `ControllerGates.UserGateExact` | src/nemo_management.rs:4566-4605 | Whoever the token stands for must be on the connection that proved the session's key and be allowed the target, as an admin, by `*` or by name; nobody need be signed in exactly while login is not required. |
| `ControllerGates.UserGateBindsTokens` | src/nemo_management.rs:4566-4605 | A session bound to a device key passes the user gate only over a connection that proved that key, and with login required only a live session of an enabled user allowed to reach the target passes. |
| `ControllerGates.AccountNamesAgree` | src/nemo_integration.rs:1991-2005 | `DOMAIN\user`, `user@domain` and the bare name are one account. |
| `ControllerGates.LowerExact` | src/nemo_integration.rs:2003-2005 | Two names have one key exactly if they differ in the case of ASCII letters alone. |
| `ControllerGates.TargetListExact` | src/nemo_management.rs:4496-4508 | For ids without separators, being on a list of ids joined by commas, semicolons or white space is exactly being one of them, or the list holding `*`. |
| `ControllerGates.BlankListAllowsAll` | src/nemo_management.rs:4496-4502 | No list, or one of white space alone, restricts nothing. |
| `RelayBroker.RunKeepsInv` | src/rendezvous_server.rs:698-936 | Every run of requests, gate reads, policy changes, pushes, sweeps and answers keeps: each record comes from one request whose three gates passed, each pending entry mirrors an unused record, each mint used one record and no two share one. |
| `RelayBroker.GrantsNeverExceedPushes` | src/rendezvous_server.rs:839-913 | Over every run, grants minted never exceed requests pushed plus the punches that are between their record and their push. |
| `RelayBroker.GrantsFollowPushesIff` | src/rendezvous_server.rs:837-913 | In every state of a run every grant's own request has been pushed, if and only if no answer in the run earns a grant for a punch that is between its record and its push. |
| `RelayBroker.PushedGrantsAreFew` | src/rendezvous_server.rs:837-913 | Where that holds, grants never exceed requests pushed. |
| `RelayBroker.GrantCanPrecedePush` | src/rendezvous_server.rs:1575-1589 | For every punch whose gates pass there is a run in which its grant is minted before anything was pushed. |
| `RelayBroker.RelayEarnsItsGrant` | src/rendezvous_server.rs:698-913 | From any state of a server with a key: a relay request whose gates pass and whose target is in memory is pushed to it, recorded under the controller's v4 address with its target and source, and its target's answer earns it one new grant, good for 60 seconds. |
| `RelayBroker.PunchEarnsItsGrant` | src/rendezvous_server.rs:1575-1589 | The same for a punch to a target that can be reached, which is recorded before it is pushed. |
| `RelayBroker.LocalPunchIsOnlyPushed` | src/rendezvous_server.rs:1478-1535 | A punch inside one intranet is pushed and leaves no entry, record or grant. |
| `RelayBroker.RefusedIsNeverServed` | src/rendezvous_server.rs:698-856 | A request that a gate refuses, or whose target cannot be reached, is neither pushed nor recorded in any run after it, whatever the policy becomes. |
| `RelayBroker.EntryLifetime` | src/rendezvous_server.rs:855-856 | An entry nobody answers or overwrites is in the table exactly until a request of any controller is recorded at or after its expiry. |
| `RelayBroker.LateAnswerMintsIffUnswept` | src/rendezvous_server.rs:880-913 | An admissible answer, however late, mints a grant if and only if no request was recorded since the entry expired. |
| `RelayBroker.WaitsIff` | src/rendezvous_server.rs:855-893 | After any run a recorded request still waits if and only if nobody answered under its address, not even a machine that is refused, no request was recorded under it, and none anywhere at or after its expiry. |
| `RelayBroker.AnswerEarnsGrantIff` | src/rendezvous_server.rs:880-913 | The right target's answer after any run earns the request its grant if and only if the same holds of that run. |
| `RelayBroker.AnswerBeforeRecordIsLost` | src/rendezvous_server.rs:837-868 | A relay request is pushed before it is recorded: an answer in between mints nothing for it, and in every later state no grant minted by then is for it. |
| `RelayBroker.RendezvousServer.RecordRelayRequest` | src/rendezvous_server.rs:855-868 | The controller's v4 address leads to the request's target and source for 60 seconds from now, every other entry stands exactly if it has not expired, and one record is made for it. |
| `RelayBroker.RendezvousServer.RelayResponse` | src/rendezvous_server.rs:880-913 | Consumes the entry first; a grant is returned exactly if there was one, a proved responder is its target and the server has its key. |
| `RelayTable.RunKeepsInv` | src/relay_server.rs:547-576 | Under every interleaving of remove, insert and timed remove: the table holds exactly the parked streams, under their own grant, and pairs point to paired streams. |
| `RelayTable.PairingIsExclusive` | src/relay_server.rs:547-572 | Every pair joins two distinct connections that presented the same grant, the joiner gets the stream parked last under it, and no connection is in two pairs. |
| `RelayTable.ManyPairsUnderOneGrant` | src/relay_server.rs:522-572 | A pair does not use its grant up: for every k there is a run with k pairs under one grant, all at one instant. |
| `RelayTable.EveryStreamInOnePlace` | src/relay_server.rs:547-576 | A verified connection past its table steps is in exactly one of parked, paired and dropped. |
| `RelayTable.NothingStaysParked` | src/relay_server.rs:572-574 | When no timer is overdue, every stream in the table still has its own timer ahead of it. |
| `RelayTable.EarlyDropIff` | src/relay_server.rs:572-574 | A stream left parked can be dropped before its own 30 seconds if and only if an earlier stream under the same grant left a timer that is due first. |
| `RelayTable.EarlyDropHappens` | src/relay_server.rs:547-576 | From the start, two streams pair and a third parked ten seconds later under the same grant is dropped by the first one's timer. |
| `RelayTable.PairingTable.TakePeer` | src/relay_server.rs:547-549 | Removes the stream under the grant, if any, and pairs it with the joiner. |
| `RelayTable.PairingTable.ParkPeer` | src/relay_server.rs:571-573 | Parks the stream, dropping one that was parked under the grant, and starts its timer. |
| `RelayTable.PairingTable.ExpirePark` | src/relay_server.rs:573-574 | The timer removes whatever is parked under the grant then. |
| `RelayProvenance.MintIsBrokered` | src/rendezvous_server.rs:888-913 | Each grant is the only one of its answer and its record; the record's request passed target, controller and user gate, and a responder that proved a key is the target asked for. |
| `RelayProvenance.RelayedSessionsAreBrokered` | src/relay_server.rs:522-577 | Over every run of both servers, each pair hbbr forms joins two distinct connections that presented the same unexpired grant, and that grant was brokered. |
| `RelayProvenance.RelayedSessionsHaveAController` | src/nemo_management.rs:4704-4813 | The controller of the very request behind a pair's grant was registered, unblocked, with outbound connections on and the target on its list when its gate was read, and is the machine its device key is bound to if it proved one. |
| `RelayProvenance.RelayedSessionsWereAllowed` | src/nemo_management.rs:4566-4605 | The target of that request was not blocked (and allowed outright where only company devices are), a punch named the server's key, and whoever was signed in was allowed the target on the connection that proved the session's key; each when its gate was read. |
| `RelayProvenance.PresentAdmitsIff` | src/relay_server.rs:522-546 | hbbr admits a connection exactly if it presents the licence and a grant that hbbs minted and that has not expired. |
| `RelayProvenance.GrantConnectsItsEnds` | src/relay_server.rs:547-572 | Two connections that present one such grant, with nothing parked under it, are paired. |
| `DeviceClaims.KeyIdExact` | src/nemo_integration.rs:979-998 | A key's id is the shortest start of its alphanumeric characters, of 16, 20, 24 and so on, that is no other key's id; or all of them, when there are no more than 16 or every such start is taken. |
| `DeviceClaims.ComputeKeyId` | src/nemo_integration.rs:979-998 | The prefix-extending loop returns that id. |
| `DeviceClaims.RegisterChangesOneRow` | src/nemo_integration.rs:1347-1405 | A registration adds one row, refreshes one (time, count, way, key id), drops the oldest waiting row to add one, or changes nothing, and the outcome says which. |
| `DeviceClaims.FullKeepsTableIff` | src/nemo_integration.rs:1376-1393 | For any table, also one loaded above the cap: a Full answer leaves it unchanged exactly when the key's own share was the reason or no row was waiting. |
| `DeviceClaims.DenialsAreSticky` | src/nemo_integration.rs:1360-1405 | Over any sequence of registrations the denied pairs stay exactly the same, and a denied pair that asks again is told Denied; that a denial is made, and holds over every run, are the next two. |
| `DeviceClaims.DenialDenies` | src/nemo_integration.rs:1504-1517 | A denial adds the pair of the row named to the denied pairs, and changes nothing else. |
| `DeviceClaims.DenialHolds` | src/nemo_integration.rs:1347-1533 | After it, in every later state of any run in which the row is not forgotten and its key not approved, bound by hand or deleted, the same pair that asks again is answered Denied. |
| `DeviceClaims.ForgetExact` | src/nemo_integration.rs:1521-1533 | Forgetting drops exactly the rows of the pair. |
| `DeviceClaims.ForgottenMayAskAgain` | src/nemo_integration.rs:1519-1533 | A pair that was denied is filed as new once its row is forgotten. |
| `DeviceClaims.RunKeepsKeysAndTable` | src/nemo_integration.rs:1347-1533 | Over every run of client and operator steps: ids and public keys pairwise distinct, rows pairwise distinct, at most 5 per key and 200 in all. |
| `DeviceClaims.AddKeepsRowsPinnedIff` | src/nemo_integration.rs:979-1029 | Pinning a fresh key keeps every row's key pinned exactly when it takes over no waiting key's id, which needs every shorter prefix taken. |
| `DeviceClaims.RunKeepsInv` | src/nemo_integration.rs:979-1533 | While no generated key takes over a waiting id, every row names a pinned key over every run. |
| `DeviceClaims.ClientsBindNothing` | src/nemo_management.rs:3902-3981 | No sequence of client steps changes a pinned key in any way. |
| `DeviceClaims.ApprovalSucceedsIff` | src/nemo_integration.rs:1471-1500 | Approval succeeds exactly when the row exists and its key is unbound or already bound to that peer. |
| `DeviceClaims.ApprovalBindsOnce` | src/nemo_integration.rs:1177-1204 | A successful approval binds the one key the row shows, never rebinds one bound before, changes no other key and removes the key's rows. |
| `DeviceClaims.FirstUseBinds` | src/nemo_integration.rs:1135-1500 | First use end to end: a machine that proves an unbound key while asking is on gets a row, approval binds the key to it, and then the key lets in that machine and no other, whatever the switches. |
| `DeviceClaims.BindingDecisionExact` | src/nemo_integration.rs:1135-1167 | A claimed id is taken as proven exactly if the key is bound to it, or unbound and unbound keys are let through; it may ask exactly if the key is unbound, they are not, asking is on and an id is named. |
| `DeviceClaims.BindSucceedsIff` | src/nemo_integration.rs:1235-1248 | Binding by hand works exactly for a known key and, white space apart, 6 to 64 letters, digits, hyphens or underscores, or nothing. |
| `DeviceClaims.BindExact` | src/nemo_integration.rs:1235-1274 | It binds that key alone, clears the claimed mark and drops exactly the key's rows. |
| `DeviceClaims.DeleteExact` | src/nemo_integration.rs:1032-1042 | Deleting takes the key of that id and its rows, and nothing else. |
| `DeviceClaims.FilingKeepsUnboundIff` | src/nemo_integration.rs:1412-1443 | Filing keeps every row's key unbound if and only if it does not ask for a pinned key bound by now with a usable peer id while the table has room or a waiting row to drop. |
| `DeviceClaims.AlwaysUnboundIff` | src/nemo_integration.rs:979-1533 | Over every run in which no generated key takes over a waiting id: every row waits for an unbound key in every state, if and only if no decided request is filed for a key bound by then with a usable id and room. |
| `DeviceClaims.OtherStepsKeepUnbound` | src/nemo_integration.rs:1235-1274 | Every other step keeps every row's key unbound. |
| `DeviceClaims.DecidedRequestOutlivesBinding` | src/nemo_management.rs:3919-3981 | A run in which a decided request is filed for a key bound in the meantime. |
| `DeviceClaims.DeviceRegistry.RegisterPendingClaim` | src/nemo_integration.rs:1347-1405 | The registration loop computes exactly the specified table and outcome. |
| `DeviceClaims.DeviceRegistry.AddDeviceKey` | src/nemo_integration.rs:1000-1029 | Drops exactly the keys of that id or public key and appends the new one. |
| `DeviceClaims.DeviceRegistry.ApproveClaim` | src/nemo_integration.rs:1471-1500 | Binds through the row or leaves everything as it was. |
| `ReplayGuard.ReplayCache.SealedLoginGuard` | src/nemo_management.rs:2006-2048 | One call: Expired exactly if more than 300 seconds old or 60 ahead, then TooLong, nonce-less acceptance, Replayed exactly if accepted in the last 300 seconds, and an eviction loop that drops no entry newer than one it keeps. |
| `ReplayGuard.ReplayCache.SealedRequestGuard` | src/nemo_management.rs:2063-2073 | The same verdicts, with a mandatory nonce. |
| `ReplayGuard.AcceptedOnce` | src/nemo_management.rs:2006-2048 | Over every run below the cap, a time stamp and nonce accepted at t is accepted again only after t + 300, and only if it was stamped later than t. |
| `ReplayGuard.AcceptedForSixMinutes` | src/nemo_management.rs:2012-2016 | In any run, whatever the cache holds: a stamp accepted at t is never accepted after t + 360. |
| `ReplayGuard.AcceptedAtMostTwice` | src/nemo_management.rs:2006-2048 | Hence, below the cap, a time stamp and nonce are accepted at most twice. |
| `ReplayGuard.ReplayableIffStampedAhead` | src/nemo_management.rs:2012-2033 | A later call accepts the same credential again if and only if it was stamped ahead of the clock that first accepted it. |
| `ReplayGuard.NeverAboveCap` | src/nemo_management.rs:2034-2048 | The cache never exceeds its cap, in any run. |
| `ReplayGuard.EntriesWereAccepted` | src/nemo_management.rs:2029-2047 | The cache holds nothing but accepted nonces, each under the time of its call. |
| `ReplayGuard.ReplayNeedsFlood` | src/nemo_management.rs:2029-2047 | Without any assumption on load: a nonce accepted twice within 300 seconds needs 99,999 other nonces accepted at or after the first. |
| `ReplayGuard.SealedRequestOnce` | src/nemo_management.rs:2063-2073 | Whatever sealed requests carry: below the cap, one accepted twice was stamped ahead of the clock that first accepted it, and more than 300 seconds lie between. |
| `SprayLimiter.Limiter.LoginSprayBlock` | src/nemo_integration.rs:1904-1920 | Refuses exactly during the global or the source's cooldown; rolls the global window only. |
| `SprayLimiter.Limiter.NoteLoginSpray` | src/nemo_integration.rs:1925-1977 | Counts the normalised name globally and for a tracked source, and reports exactly whether it started a cooldown. |
| `SprayLimiter.WindowFollowsRun` | src/nemo_integration.rs:1875-1977 | The window of a source, or the global one, evolves through a run as if alone with the touches that concern it. |
| `SprayLimiter.WindowRateBound` | src/nemo_integration.rs:1868-1893 | For any bounds with a window and cooldown of 60 s and one of them 120 s: one window records in D seconds at most (cap + 1) * (D / 60 + 2) distinct names beyond those recorded in its cooldowns. |
| `SprayLimiter.SprayRateBound` | src/nemo_integration.rs:1859-1977 | Over every run whose failures passed the check when recorded: at most 11 * (D / 60 + 2) distinct names per source and 31 * (D / 60 + 2) in all, in any span of D seconds. |
| `SprayLimiter.InFlightRateBound` | src/nemo_management.rs:2235-2307 | Over every run in which at most k logins of a source (or of all) are ever between check and record: at most 11 * (D / 60 + 2) + k * (D / 60 + 2) names for a source, 31 * (D / 60 + 2) + k * (D / 120 + 2) in all. |
| `SprayLimiter.FewNamesNeverBlock` | src/nemo_integration.rs:1925-1977 | A source with at most ten distinct names in the run, or a server with at most thirty, never starts a cooldown. |
| `SprayLimiter.FewNamesAreLetThrough` | src/nemo_integration.rs:1904-1920 | So no login is refused, from a source with at most ten distinct names on a server with at most thirty. |
| `SprayLimiter.ManyNamesAreRefused` | src/nemo_integration.rs:1925-1977 | A source that fails with more than ten distinct names, as the directory knows them, is refused for 60 seconds. |
| `SprayLimiter.CooldownRefuses` | src/nemo_integration.rs:1885-1920 | A failure that starts a cooldown refuses for as long as that lasts, whatever else happens: its source for 60 seconds, or everyone for 120. |
| `SprayLimiter.TableBounded` | src/nemo_integration.rs:1953-1962 | The table of sources never exceeds 4096 entries. |
| `SprayLimiter.InFlightFailuresAreUnbounded` | src/nemo_management.rs:2235-2307 | Logins checked before any of them is recorded are all recorded, whatever their names and number. |
| `AccessRevocation.NormalizeTargetsExact` | src/nemo_integration.rs:759-772 | A normalised target list holds exactly the trimmed, non-blank targets given, each once. |
| `AccessRevocation.NormalizeTargetsIdempotent` | src/nemo_integration.rs:759-772 | Normalising targets twice is normalising once. |
| `AccessRevocation.SavedEntriesExact` | src/nemo_integration.rs:724-733 | A saved map has each user as in the last entry that names it, with its targets normalised. |
| `AccessRevocation.SavedUsersExact` | src/nemo_integration.rs:724-733 | A saved map has exactly the users named, under their canonical names. |
| `AccessRevocation.SwitchExact` | src/nemo_integration.rs:876-909 | The enable switch sets one user's flag and no other access; a new user gets the default targets, no admin right and no policy. |
| `AccessRevocation.StaleSaveRefused` | src/nemo_integration.rs:697-757 | For every interleaving of saves, enable switches and logins, a save carrying the version it read is accepted exactly if no admitted save or switch came in between; then every user's access is as read. |
| `AccessRevocation.SaturatedVersionAcceptsAll` | src/nemo_integration.rs:745 | At its largest value the version stops moving and every stale save is accepted. |
| `AccessRevocation.TwoReadsSafeIff` | src/nemo_management.rs:2820-2828 | A save based on a map and a version read in two steps is safe, whatever comes later, if and only if access did not change between the reads. |
| `AccessRevocation.TwoReadsCanLoseAChange` | src/nemo_management.rs:2820-2828 | An enable switch between the two reads is such a lost change. |
| `AccessRevocation.SessionTable.EvictChanged` | src/nemo_integration.rs:778-841 | Removes exactly the sessions whose user's access changed; the keys returned are the distinct non-empty device keys of those. |
| `AccessRevocation.AffectedUnlessKept` | src/nemo_integration.rs:785-820 | A session survives exactly if its user keeps targets, admin flag and policy and was not disabled. |
| `AccessRevocation.RevocationIsComplete` | src/nemo_integration.rs:711-909 | Over every interleaving of writes, evictions and logins: with no eviction outstanding, every live session's user has the access it had when the session was stored, and as checked at login unless it changed during that login. |
| `AccessRevocation.SaveEndsSessions` | src/nemo_integration.rs:711-841 | An admitted save that drops or disables a user ends its sessions: in any run that follows, none that was live at the save is left once no eviction is outstanding. |
| `AccessRevocation.SaveThenEvictEndsSessions` | src/nemo_integration.rs:711-841 | Its own eviction leaves none of that user's sessions. |
| `AccessRevocation.SessionEndsIff` | src/nemo_integration.rs:778-841 | A session ends exactly when it is dropped (logout, expiry), its device key's sessions are, or an eviction runs by a change of its user's access. |
| `AccessRevocation.LoginOpensIff` | src/nemo_management.rs:2195-2267 | A login that shows a device key gets a session bound to it exactly if the key was on the list when it was proven and, where login is required, the user is enabled. |
| `AccessRevocation.CheckedAccessKeptIff` | src/nemo_management.rs:2251-2267 | A session just stored keeps, in every later state without outstanding eviction and however the run goes on, the access checked at its login, if and only if that access still held when it was stored or an eviction that ends it was outstanding. |
| `AccessRevocation.LoginInFlightOutlivesRevocation` | src/nemo_management.rs:2251-2267 | A login checked before its user is disabled and stored after the eviction leaves a live session. |
| `AccessRevocation.RemovedKeyStaysSilentIff` | src/nemo_integration.rs:1032-1050 | Taking a device key off the list and dropping its sessions ends them all, and none comes back in any run that does not pin it again, if and only if no login that had proven the key was in flight when they were dropped. |
| `AccessRevocation.PeerIdsForDeviceKeys` | src/nemo_integration.rs:1053-1062 | The distinct non-empty peer ids bound to one of the keys. |
| `AccessRevocation.ConnectionStore.SetPeerTerminate` | src/nemo_management.rs:972-988 | The stamp becomes the later of now and what it was; no other moves. |
| `AccessRevocation.ConnectionStore.TerminateSessionsFromControllers` | src/nemo_management.rs:4375-4393 | Removes exactly the controllers' rows and stamps exactly their targets, never backwards. |
| `AccessRevocation.OthersExact` | src/nemo_management.rs:4391 | Of each row, none is left if it is a controller's and all are left if not. |
| `AccessRevocation.Revoke` | src/nemo_management.rs:2840-2855 | From the permission change to the wire: the machine a revoked session's key is bound to has no row left, and every target it had is stamped now or later. |
| `AccessRevocation.PermissionStore.UpdatePermissions` | src/nemo_integration.rs:711-757 | Admits exactly an absent or current version. Entries carried leave exactly the users they name, each as its last entry with normalised targets; none carried leaves the users as they were. Each setting is replaced exactly if present, and the version goes up by one. |
| `AccessRevocation.PermissionStore.SetUserEnabled` | src/nemo_integration.rs:876-909 | Upserts the user with the default targets, sets the flag and bumps the version. |
| `AccessRevocation.PermissionStore.RecordLogin` | src/nemo_integration.rs:849-869 | Changes profile fields of a known user only and reports its access. |
| `PeerCache.PeerMap.Get` | src/peer.rs:146-165 | Answers the row's status, key, uuid and address from the map or the row, keeps the map agreeing with the table, and misses only what is neither cached nor read. |
| `PeerCache.PeerMap.InsertRead` | src/peer.rs:150-163 | Storing a row read earlier keeps the agreement exactly if the row's status is still that. |
| `PeerCache.PeerMap.GetOr` | src/peer.rs:168-179 | Keeps the agreement exactly if the read worked, the id was cached, or the row carries no status. |
| `PeerCache.PeerMap.UpdatePk` | src/peer.rs:103-143 | The row inserted or updated, and no other; success exactly if the write worked and an insert found no row; the agreement is kept, also through a stale record. |
| `PeerCache.PeerMap.RegisterNew` | src/peer.rs:125-134 | The insert half: a record without a row id gets one exactly if the write worked and the id had no row. |
| `PeerCache.PeerMap.UpdateRow` | src/database.rs:171-188 | The update by row id changes key and info of the record's own row, if it is still there. |
| `PeerCache.PeerMap.InsertRow` | src/database.rs:150-169 | The insert is refused by the unique id and starts without a status. |
| `PeerCache.PeerMap.StoreStatus` | src/peer.rs:213-218 | The map half of a status change restores the agreement exactly if it stores the row's present status. |
| `PeerCache.PeerMap.SetPeerStatus` | src/peer.rs:206-220 | Row and record change together, for an existing row only. |
| `PeerCache.PeerMap.DeleteRegistered` | src/peer.rs:232-238 | Row and map entry go together; a record without a row stays. |
| `PeerCache.PeerMap.PeerStatus` | src/peer.rs:240-249 | The status answered is the table's, cached or not. |
| `PeerCache.PeerMap.IsPeerBlocked` | src/peer.rs:251-253 | The answer of a map without a cache; an unreadable id is not blocked. |
| `PeerCache.PeerMap.IsPeerAllowedForControl` | src/peer.rs:255-265 | The decision of a map without a cache; an unreadable id counts as without status. |
| `PeerCache.FailingReadUnblocks` | src/peer.rs:168-179 | One failing read unblocks a blocked peer for good, with its row unchanged. |
| `PeerCache.StaleReadHidesABlock` | src/peer.rs:146-220 | A status change between the two halves of a lookup: the row says blocked, the map does not, and every call worked. |
| `PeerCache.CrossedChangesDisagree` | src/peer.rs:206-220 | Two status changes that write in one order and store in the other: the row says blocked, every decision says allowed. |
| `PeerCache.RunOps` | src/peer.rs:103-265 | Any sequence of operations on a database that can be read, with failing writes and stale records, leaves the map agreeing with the table. |
| `KeyPublication.RunKeepsInv` | src/common.rs:210-348 | Every step of any number of starts, with names apart and no second name of the key file opened, keeps: names lead to distinct files, the key file is whole, every returned key is the one in it, and it never changes. |
| `KeyPublication.PublicationConverges` | src/common.rs:210-348 | For every interleaving of starts, no two running at once under one process id, with stops and failures anywhere but in reading an existing key file: at most one link, a key file that is whole and never changes, and every start that returns a key returns that one. |
| `KeyPublication.KeptIffNoHarm` | src/common.rs:264-292 | With shared process ids and failing reads too: a whole key file that never changes and that every publishing or returning start agrees with, throughout, if and only if no start opens the key file's inode, writes another key to it, or links one without its key. |
| `KeyPublication.KeptIffNoOverwrite` | src/common.rs:264-278 | With names apart the only such harm is opening a leftover second name of the key file. |
| `KeyPublication.LinkedAtMostOnce` | src/common.rs:277 | In every run whatever, the key file is linked at most once. |
| `KeyPublication.LoneStartPublishes` | src/common.rs:264-292 | From any state without a key file, whatever its temporary name was left as: an uninterrupted start that may make a key links its own, removes the temporary name and returns the key. |
| `KeyPublication.StartReads` | src/common.rs:307-332 | A start returns the key on file, ends on a malformed one, and with none goes on to make one exactly if it was asked to. |
| `KeyPublication.LateStartReturnsTheOthersKey` | src/common.rs:277-283 | A start whose link comes too late returns the key that is there. |
| `KeyPublication.FailedStartExits` | src/common.rs:338-347 | One that cannot publish and finds no key afterwards exits. |
| `KeyPublication.SharedNameBreaksTheKey` | src/common.rs:264-277 | Two running starts under one process id publish a truncated key, with no call failing. |
| `KeyPublication.IntactIffNoOverwrite` | src/common.rs:264-278 | With names apart and failing reads, the key file stays intact exactly in the runs in which no start opens a leftover second name of it. |
| `KeyPublication.FailedReadCanTruncateTheKey` | src/common.rs:190-218 | A run with one failed read that truncates the published key. |
| `KeyPublication.PickKeyPair` | src/common.rs:246-257 | The first generated pair whose public key has neither slash nor colon, or the one after 300 tries. |
| `KeyPublication.KeyDirectory.GenerateAndPublish` | src/common.rs:264-292 | Publishes exactly if every call works and no key file is there; else the key file is as before. |
| `KeyPublication.KeyDirectory.GenSk` | src/common.rs:299-348 | An uninterrupted start returns the key on file and changes nothing, returns nothing and changes nothing on a malformed one, and with none there makes one exactly if asked and every call works. |
| `KeyRotation.KeyStore.Rotate` | src/nemo_management.rs:1136-1177 | The calls in their order, with every failure branch, leave the last disk of the specified trace. |
| `KeyRotation.KeepsUnlessLoses` | src/nemo_management.rs:1136-1177 | At every point of a rotation that overwrites nothing, every secret on disk is still there. |
| `KeyRotation.NothingLostIff` | src/nemo_management.rs:1136-1177 | Every secret survives to every point if and only if the rotation neither missed an existing key file nor archived over an older archive. |
| `KeyRotation.PreviousSecretSurvives` | src/nemo_management.rs:1130-1133 | At every point the previous secret is whole in the key file or in the archive, also when the archive's name was taken. |
| `KeyRotation.OutcomeExact` | src/nemo_management.rs:1136-1177 | Of one rotation that nobody interrupts: success puts the new key in service; an error with a working rollback leaves the old; no key is left exactly after a failed publication and a failed rollback. |
| `KeyRotation.OthersUntouched` | src/nemo_management.rs:1136-1162 | No archive of another second is touched, at any point. |
| `KeyRotation.NoSecretEverLost` | src/nemo_management.rs:1136-1177 | Over any number of rotations one after the other in distinct seconds, each failing or stopped anywhere, no secret in service or archived is lost. |
| `KeyRotation.SameSecondLosesTheOldest` | src/nemo_management.rs:1144-1145 | Two rotations in the same second leave nothing of the first key. |
| `RotationOverlap.AloneIsRotate` | src/nemo_management.rs:1136-1177 | In the model of overlapping rotations, one that nobody interrupts leaves the disk `KeyStore.Rotate` leaves and succeeds exactly when it does. |
| `RotationOverlap.RunKeepsInv` | src/nemo_management.rs:1136-1177 | Over every interleaving of rotations of one process: names lead to distinct files, no key is in two files, and a key not written yet is in none. |
| `RotationOverlap.StoppedIsOver` | src/nemo_management.rs:1136-1177 | A rotation that stops leaves the files as they are and does nothing more. |
| `RotationOverlap.SuccessServesItsKeyIff` | src/nemo_management.rs:1136-1162 | A rotation that renames the temporary file into place, after any run of itself and others, puts its own key in service if and only if the file it wrote to was still the temporary one and no other rotation opened that name or wrote to its file in between. |
| `RotationOverlap.OverlapLosesNothingIff` | src/nemo_management.rs:1136-1177 | Over every interleaving, every secret in service or archived stays so at every step, if and only if no step renames onto a whole key or writes to one under another name. |
| `RotationOverlap.SuccessCanServeAnothersKey` | src/nemo_management.rs:1136-1177 | Two overlapping rotations in which no call fails by itself: the first succeeds, the second's key is in service, the first's is nowhere; in one second the old key is gone too. |
| `RotationOverlap.RollbackCanUndoASuccess` | src/nemo_management.rs:1136-1162 | Another such run: the second succeeds, the first rolls the old key back over it, and the new key is gone. |
| `RelayAccounting.Relay` | src/relay_server.rs:590-682 | The loop with its counters reports, at each turn that completes a second while the session lasts, exactly eight times the bytes sent on by then and the speed since the sample before; and downgrades exactly if some sample was over the threshold. |
| `RelayAccounting.LoopReportsExactly` | src/relay_server.rs:604-682 | For every session and number of turns, by the turns alone: the loop is on exactly while no turn has ended it, and each sample is eight times the bytes forwarded in both directions up to its turn, with the speed since the last and the largest speed so far. |
| `RelayAccounting.StatsStore.RecordRelayGrant` | src/nemo_management.rs:4971-4997 | Appends the new row to at most 255 of the old ones, in order, of which a live one is dropped only if no ended one is kept, and of two alike in that not the one brokered later. |
| `RelayAccounting.MakeRoomExact` | src/nemo_management.rs:4971-4989 | Making room drops just enough rows: live ones only when no ended one is kept, then those brokered first. |
| `RelayAccounting.StatsStore.ApplyRelayUsage` | src/nemo_management.rs:5001-5052 | Folds the samples in order and marks ended every live row without one. |
| `RelayAccounting.PollShowsLatest` | src/nemo_management.rs:5003-5051 | After a poll a brokered session's row shows its latest sample, live; one without a sample keeps its figures, ended and with no rate. |
| `RelayAccounting.FoldConserves` | src/nemo_management.rs:5022-5043 | One sample charges an account by exactly what its row grows, plus a foreign report or a restart's drop. |
| `RelayAccounting.ChargesAreConserved` | src/nemo_management.rs:4971-5052 | Over every run, for the fleet and each peer: the total is exactly the bytes of the rows on the table, of the evicted ones, of restarted sessions before they dropped and of foreign reports. |
| `RelayAccounting.OrderlyTotals` | src/nemo_management.rs:5001-5052 | With monotone samples of brokered, never evicted sessions, the fleet total is the sum of the rows and a peer's the sum over the sessions it is an end of. |
| `RelayAccounting.TableBounded` | src/nemo_management.rs:4971-4989 | The table never exceeds 256 rows. |
| `RelayAccounting.DashboardShowsForwardedBytes` | src/relay_server.rs:350-374 | From loop to table, over any run of grants and polls of any sessions: a session kept on the table and reported at samples of its own loop shows exactly the bytes its turns forwarded up to the last of them, and its samples charged the fleet exactly those. |
| `RelayAccounting.SharedLabelPoll` | src/nemo_management.rs:5003-5051 | A poll that lists two sessions under one label shows the second and charges what the first is above the row and the second above the first. |
| `RelayAccounting.SharedLabelOvercharges` | src/nemo_management.rs:5022-5043 | So n further polls in which neither carries a byte overcharge the fleet by exactly n times the difference of their counts. |
| `ConnectionHistory.ConnectionTable.UpsertConnection` | src/nemo_management.rs:5249-5302 | The pair's row keeps its first time, counts one more and takes the new route and time; without one, a new row is appended and the table trimmed to the limit in force. |
| `ConnectionHistory.ConnectionTable.SetLimit` | src/nemo_management.rs:5949-5951 | Stores the clamped limit before the table is trimmed. |
| `ConnectionHistory.ConnectionTable.ApplyLimit` | src/nemo_management.rs:5953-5967 | Trims by the limit of its own call. |
| `ConnectionHistory.TrimKeepsTheNewest` | src/nemo_management.rs:5287-5300 | Trimming keeps as many rows as the limit allows, in order, and drops none seen later than one it keeps. |
| `ConnectionHistory.RunKeepsInv` | src/nemo_management.rs:5249-5302 | Over any run, pairs stay distinct and the table is within the limit in force unless a trim by that limit is outstanding. |
| `ConnectionHistory.AlwaysWithinIff` | src/nemo_management.rs:5249-5302 | From a table within its limit, it is within the limit in force in every state of a run if and only if no limit change in the run asks for less than the rows there are at that moment. |
| `ConnectionHistory.LoweredLimitCanBeExceeded` | src/nemo_management.rs:5949-5967 | Between storing a lowered limit and trimming by it, an upsert leaves the table above it. |
| `ConnectionHistory.NewRecordStays` | src/nemo_management.rs:5273-5300 | The negotiation just recorded is in the table afterwards, whatever was evicted. |
| `ConnectionHistory.NegotiationsExact` | src/nemo_management.rs:5260-5284 | A row's count is exactly the upserts of its pair since the pair last entered the table. |
| `ConnectionHistory.DropsExact` | src/nemo_management.rs:4375-4393 | Revoking controllers, or deleting a target, takes exactly their rows and keeps the order of the others. |
| `PushRegistry.Server.RegisterPeerPush` | src/rendezvous_server.rs:1658-1665 | Drops entries of closed connections and sets the id's entry. |
| `PushRegistry.Server.PushToPeer` | src/rendezvous_server.rs:1637-1654 | One dispatch: appended to the channel of the live registered connection and nothing else changed, or UDP with just that id's stale entry dropped. |
| `PushRegistry.Server.ReadFrame` | src/rendezvous_server.rs:2240-2248 | Re-checks the key, then handles the frame; keeps the connection exactly for a registration of its own id by an unblocked peer, an empty heartbeat or another accepted frame, and a registration leads the id to this connection. |
| `PushRegistry.IdentitiesHold` | src/rendezvous_server.rs:997-1062 | Over every run, each registry entry and each push that left through a channel belongs to a connection that proved exactly that id or nothing. |
| `PushRegistry.PushesGoOnce` | src/rendezvous_server.rs:1637-1654 | Push n is in the channel it was dispatched to, once and in order, and in no other. |
| `PushRegistry.LiveEntryStays` | src/rendezvous_server.rs:1656-1665 | A live connection's entry survives everything, including earlier connections closing, but a registration of that id by another connection. |
| `PushRegistry.RegisteredPeerIsPushed` | src/rendezvous_server.rs:1637-1665 | So a peer that registered and is not taken over gets every push through its own connection, in order, for as long as that lives. |
| `PushRegistry.TakesInTurn` | src/rendezvous_server.rs:2200-2230 | A live connection takes the pushes out of its channel one by one, in order. |
| `PushRegistry.AcceptedIff` | src/rendezvous_server.rs:2173-2190 | A connection is accepted exactly if the key it proved is on the list or, with none proved, none is required. |
| `PushRegistry.RevokedKeyIsSilent` | src/rendezvous_server.rs:2237-2245 | After a revocation no frame is handled under that key, on any connection, until it is pinned again. |
| `LdapFilter.EscapeFilter` | src/nemo_integration.rs:2038-2052 | The escaping loop computes the specified text. |
| `LdapFilter.EscapeReadsBack` | src/nemo_integration.rs:2037-2052 | Section 3 of RFC 4515: escaped text is read back as exactly the text given. |
| `LdapFilter.EscapeHasNoStructure` | src/nemo_integration.rs:2037-2052 | Escaped text has no parenthesis, asterisk or NUL. |
| `LdapFilter.FilterShapeIsTheTemplates` | src/nemo_integration.rs:2024-2035 | For every template, user and domain the structural characters of the filter are the template's, in order. |
| `LdapFilter.OnePlaceholderExact` | src/nemo_integration.rs:2024-2035 | For every user and domain, a template with one placeholder and no other brace stays itself around that place, which holds the escaped value after the replacements that come later. |
| `LdapFilter.ReplaceSameIff` | src/nemo_integration.rs:2031-2034 | A replacement leaves a text as it is if and only if there is nothing to replace or it replaces by the same. |
| `LdapFilter.OccursEscapedIff` | src/nemo_integration.rs:2031-2052 | Escaped text contains a placeholder exactly if the text does. |
| `LdapFilter.RawNameHeldIff` | src/nemo_integration.rs:2024-2035 | The place of `{raw_username}` holds the bare name, read back as it is, if and only if that name has no `{upn}` in it or is the principal then put there. |
| `LdapFilter.UsernameHeldIff` | src/nemo_integration.rs:2024-2035 | The place of `{username}` holds the name typed, read back as it is, if and only if the later replacements find nothing in it to replace by something else: no `{raw_username}`, no `{upn}`. |
| `LdapFilter.TypedPlaceholderIsReplaced` | src/nemo_integration.rs:2031-2034 | In every such template, a user who types `{upn}` searches for another value once a domain is configured. |
| `LdapFilter.PrincipalExact` | src/nemo_integration.rs:2024-2031 | The principal is the bare account name at the configured domain, however the name was typed; without a domain the bare name. |
| `SecretMasking.MaskSecretPolicy` | src/nemo_management.rs:6227-6236 | Masks exactly the non-empty secrets. |
| `SecretMasking.RestoreMaskedSecrets` | src/nemo_management.rs:6247-6269 | A secret sent as the mask takes the stored value or its absence; everything else is kept as sent. |
| `SecretMasking.MaskHidesSecrets` | src/nemo_management.rs:6214-6236 | Policies that differ only in non-empty secrets are shown alike. |
| `SecretMasking.MaskRoundTrip` | src/nemo_management.rs:6238-6269 | A policy sent back as shown is saved as stored. |
| `SecretMasking.EditIsSavedIff` | src/nemo_management.rs:6247-6269 | An edit on the shown policy is saved exactly as made unless it sets a secret to the mask's own text. |
| `OnlineStates.OnlineRequest` | src/rendezvous_server.rs:1605-1631 | Bit i, left to right, is set exactly if peer i is online; padding is zero; any length. |
| `PermissionMask.MaskReadsBack` | src/nemo_management.rs:4650-4682 | Each two-bit field reads back as exactly what the policy says of that permission, every other field is unset, and the mask is zero exactly if nothing is said. |
| `PermissionMask.ControlPermissionsFor` | src/nemo_management.rs:4650-4682 | No mask without a policy that mentions a permission; else one that reads back as the policy. |
| `DirectEndpoints.EndpointRoundTrip` | src/nemo_management.rs:1224-1254 | Every valid endpoint is parsed back from its written form. |
| `DirectEndpoints.ParsesTrimmed` | src/nemo_management.rs:1224-1228 | White space around an entry does not matter. |
| `DirectEndpoints.PortsReadAlike` | src/nemo_management.rs:1238-1247 | A port is any of 1 to 65535, also with a plus sign or leading zeros. |
| `DirectEndpoints.AcceptedIsValid` | src/nemo_management.rs:1224-1254 | Whatever is accepted has a host without separators, ports in range, and a written form within the length limit. |
| `DirectEndpoints.NormalizeIdempotent` | src/nemo_management.rs:1224-1254 | Normalising is idempotent for every input and gives no entry separator. |
| `DirectEndpoints.IndependentOfOrder` | src/nemo_management.rs:1323-1337 | The value does not depend on the order of the hash map. |
| `DirectEndpoints.MapSplitsBack` | src/nemo_management.rs:1323-1337 | For separator-free ids the value splits back to exactly the rows of unblocked, allowed peers. |

## Left out

- Sockets, tasks, TLS, routing, logging, command line and JSON files; the LDAP conversation, certificate handling, SQL execution and the dashboard are not part of this model.
- Cryptography is ideal; the wire layout of a grant and `relay_session_label` are not modelled.
- `controller_source_identity` and the typed source field: what they parse to is an input of the gates.
- `check_ip_blocker`, the per-id registration rate limit and `login_backoff_ms` are counters with one branch each.
- The speed limiters inside the relay loop; only counters, samples and the downgrade latch are kept.
- The key's `.pub` copy, file permissions and `server_public_key_on_disk` are not part of the key models.
- ControllerGates.LowerExact: is about ASCII letters only, like every name compared in lower case here.
- ControllerGates.UserGateBindsTokens: lower-cases user names in ASCII only, where the code uses Unicode lower-casing.
- AccessRevocation.LoginOpensIff: what comes before it (the directory's answer, the limiters, whether a login without any device key is refused) is not part of the step.
- AccessRevocation.RevocationIsComplete: session expiry and logout are one step that drops any session.
- PeerCache.RunOps: takes each operation as one step; the halves between which others can run are separate methods with the exact condition for each.
- KeyPublication.PublicationConverges: supposes that no two running starts share a temporary name; `KeptIffNoHarm` has the condition without that. A write that fails leaves the file partial; torn writes that happen to parse are not modelled.
- RelayAccounting.ChargesAreConserved: counters are unbounded, where the code would overflow at 64 bits.
- ConnectionHistory.RunKeepsInv: instants are numbers of one nondecreasing clock.
- PermissionMask.MaskReadsBack: the permission numbers belong to hbb_common, which is not part of this model, so they are any distinct numbers.
- DirectEndpoints.MapSplitsBack: ids with a comma or semicolon, which nothing forbids, are outside the claim.
- OnlineStates.OnlineRequest: the cast of elapsed milliseconds to 64 bits is not modelled.
