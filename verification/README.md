# Flagpost: verified models of the protocols behind the server

Flagpost runs Capture-the-Flag competitions. This project models, in Dafny, the parts of its
backend whose correctness depends on how several pieces of code fit together, and proves what those
parts promise:

- **Revocation over WebSockets** (`ConnectionIndexes.dfy`, `Revocation.dfy`, `Delivery.dfy`,
  `Broadcast.dfy`, `Relay.dfy`). Each worker keeps its sockets in three indexes, a revoked set,
  per-user revocation epochs and a gap epoch. `ConnectionIndexes` holds the manager as a mutable
  class, each method proved to be a function on the indexes. `Revocation` runs any number of such
  workers: handshakes cut at every await, evictions on any worker, a relay that may lose whole
  stretches, resubscription and the gap handler. A ghost log of committed revocations says which
  authorize reads are stale. `Delivery` adds the fan-outs, which list their sockets first and start
  the sends later. `Broadcast` is the fan-out over a relay without gaps, `Relay` the supervised
  subscription.
- **Presence** (`PresenceLocal.dfy`, `PresenceStore.dfy`, `PresenceCluster.dfy`): the debounced local
  list; the shared store with its payload hash and liveness set, heartbeats, and workers that crash;
  and the two together, with store calls on their way while local lists change.
- **Refresh tokens and address-bound links** (`RefreshSessions.dfy`, `AddressTokens.dfy`,
  `AddressLinks.dfy`, `ExternalIdentity.dfy`): requests are cut into their database statements and interleaved without
  restriction; lineage, mailed addresses and proven addresses are history kept beside the tables.
- **Sliding-window rate limiting** (`RateLimiter.dfy`): a pruned deque and a Redis sorted set, both
  measured against a specification that keeps every admitted hit.
- **Module load order** (`LoadOrder.dfy`): the recursive depth-first sort with its three errors.
- **Judging** (`Judge.dfy`, `CompareOutput.dfy`): lazy and run-all judging over any runner whose
  answers may depend on everything it ran before, and the comparison of outputs.
- **Permissions** (`Permissions.dfy`): the queries over role assignments, and who may manage whom.

State that the source updates in place is a class whose methods equate the new state with a
specification function of the old one. The protocol machines then run on those same functions, so a
theorem about a run is a theorem about what the methods do. Atomic steps are the stretches between
two awaits and single SQL or Redis statements.

## What the proofs found

- The comments on `evict_users` and `_deliver_local` say that delivery to an evicted user's sockets
  stops at once. There are two ways in which it does not, and no third
  (`Delivery.StaleSocketIsSentToIff`). A fan-out that listed a socket before the eviction marked it
  still starts its send afterwards (`Delivery.LateSendReachesEvictedSocket`). And a socket whose
  handshake lost the race with an eviction is refused, but listed by broadcasts between its join and
  its clean-up: `Revocation.RefusedSocketIsAddressedUntilSilenced` says until when exactly,
  `Revocation.RefusingSocketIsAddressedInSomeRun` gives a run.
- Reuse detection ends a family for good exactly when no rotation of it stands between claim and
  issue at that moment (`RefreshSessions.ReuseKillsTheFamilyIffNoneInFlight`); one that does goes on
  to issue a usable session, and a new installation can come to that
  (`RefreshSessions.ReplayMayMeetARotationInFlight`).
- A password change promises to log its user out everywhere. It does exactly when, by its write, no
  rotation of the user's is in flight and no session has appeared that it did not read
  (`RefreshSessions.PasswordChangeLogsOutIff`, `RefreshSessions.PasswordChangeMayMissARotation`).
- "Verified means proven" holds in every state of a run exactly when every administrator's or
  delegate's edit of an address was harmless when it wrote (`AddressTokens.VerifiedMeansProven`). An
  edit clears the stamp through the row it loaded, and a stamp that lands in between is carried to
  the new address (`AddressTokens.EditMayCarryAStamp`); `change_email` guards against this, the
  edit in `backend/routers/users.py` does not.
- An administrator who vouches for an account without an address stamps it verified with nothing
  proven (`AddressTokens.VouchedAccountWithoutAddressIsVerified`). Every verified account holds an
  address proven for it, in every state of a run, exactly when edits were harmless and nobody
  vouched for an account without one (`AddressTokens.VerifiedAccountsHoldProvenAddresses`).
- The presence list is right when a worker's calls about one user and room reach the store in order
  (`PresenceCluster.ShownIffPresent`). Nothing in the code keeps them in order, and a removal
  overtaken by the rejoin behind it hides a user who is there (`PresenceCluster.OvertakingHidesAUser`),
  heartbeats or not, until they join again (`PresenceCluster.HiddenUntilJoin`).
- The rate limiter's contract says a rejected hit does not extend the window. In the Redis limiter it
  does until its clean-up has run: a hit is admitted exactly when the admitted hits of its window and
  the rejected ones still in the set are together fewer than the limit
  (`RateLimiter.AdmittedIffRoomBesideRejected`, `RateLimiter.RejectedHitMayExtendTheWindow`).
- Comparing by numbers is not symmetric; `CompareOutput.OneWayMatches` says for which numbers.
- `users_with_permission` calls itself the inverse of `user_has_permission`, but it does not look at
  the role's scope: it adds the users of malformed site-wide rows
  (`Permissions.AudienceIsHoldersAndMalformed`, `Permissions.AudienceMayDisagree`).
- Lazy and run-all verdicts differ exactly when compiling passes and running on would meet a harness
  error after some test has failed (`Judge.LazyVerdictIsRunAlls`, `Judge.LazyAndRunAllMayDiffer`).

## Model

| member | source | states |
|---|---|---|
| ConnectionIndexes.JoinKeepsAgreement | backend/realtime/manager.py:246-251 | joining an untracked socket keeps rooms, user sets and metadata in agreement, makes that socket servable and leaves every other socket's standing alone |
| ConnectionIndexes.LeaveKeepsAgreement | backend/realtime/manager.py:253-266 | leaving keeps the indexes in agreement with no empty set kept, and only the leaving socket stops being servable, its revoked mark gone or not |
| ConnectionIndexes.DropKeepsAgreement | backend/realtime/manager.py:525-528 | dropping a broadcast's dead sockets keeps agreement, forgets exactly those sockets and their marks, and touches no epoch |
| ConnectionIndexes.MarkMeaning | backend/realtime/manager.py:401-424 | an eviction marks exactly the tracked sockets of the named users whose room passes the filters, and bumps an epoch once per mention |
| ConnectionIndexes.MarkFrame | backend/realtime/manager.py:401-424 | marking changes the revoked set and the epochs and nothing else |
| ConnectionIndexes.MarkedByFilter | backend/realtime/manager.py:411-423 | a tracked socket is marked exactly when its user is named, its room is of the kind asked for, if any, and its room's id begins with the prefix asked for, if any |
| ConnectionIndexes.MatchesMeaning | backend/realtime/manager.py:418-421 | the two filters, written out |
| ConnectionIndexes.GapMeaning | backend/realtime/manager.py:132-151 | after the gap handler no socket may be served and the indexes agree |
| ConnectionIndexes.TargetsMeaning | backend/realtime/manager.py:502-506 | a delivery addresses exactly the room's tracked, unrevoked sockets other than the excluded one |
| ConnectionIndexes.DistinctMembers | backend/realtime/manager.py:335 | the ids an eviction works on are the given non-empty ones, each once |
| ConnectionIndexes.ConnectionManager.Join | backend/realtime/manager.py:246-251 | the new indexes are those the join specification gives |
| ConnectionIndexes.ConnectionManager.Leave | backend/realtime/manager.py:253-266 | the new indexes are those the leave specification gives, in the partial cases too |
| ConnectionIndexes.ConnectionManager.MarkUser | backend/realtime/manager.py:411-423 | one user's share of an eviction: epoch up by one, matching sockets marked and returned |
| ConnectionIndexes.ConnectionManager.MarkRevoked | backend/realtime/manager.py:401-424 | all named users in turn; the sockets returned are those marked |
| ConnectionIndexes.ConnectionManager.EvictUsers | backend/realtime/manager.py:305-355 | empty and repeated ids dropped, local marking, the payload to publish and the count; nothing at all when no id is left |
| ConnectionIndexes.ConnectionManager.OnRelayed | backend/realtime/manager.py:212-244 | own payloads are skipped, an eviction marks, one without a list of ids does nothing, a frame is addressed to the local room |
| ConnectionIndexes.ConnectionManager.OnRelayGap | backend/realtime/manager.py:132-151 | the gap epoch is bumped and every tracked socket marked and returned |
| ConnectionIndexes.ConnectionManager.Address | backend/realtime/manager.py:502-506 | with the indexes in agreement a delivery is sent exactly to the sockets that joined the room and may still be served, except the excluded one |
| ConnectionIndexes.ConnectionManager.DropDead | backend/realtime/manager.py:525-528 | the dead sockets leave one after the other |
| Revocation.StepKeepsInv | backend/realtime/manager.py:212-424 | every step of any worker, handshake or relay keeps the protocol invariant: processed revocations have marked or overtaken every stale socket they name |
| Revocation.RunKeepsInv | backend/realtime/router.py:157-295 | the invariant holds after every run, however steps interleave |
| Revocation.NoStaleFrameIsServed | backend/realtime/router.py:229-243 | once a worker has acted on a revocation, locally, over the relay or through the gap handler, no inbound frame is acted on there from a socket it names whose authorize read came before the commit |
| Revocation.NamesMeaning | backend/realtime/manager.py:335-338 | which users and rooms a revocation names, with ids and filters written out |
| Revocation.NoStaleHandshakeIsAdmitted | backend/realtime/router.py:210-221 | a handshake that missed such a revocation is refused at the re-check after its join |
| Revocation.StaleSocketIsAddressedIffRefusing | backend/realtime/manager.py:500-506 | when a delivery lists its targets, a socket stale to a revocation acted on is among them exactly while it is refused, indexed and unmarked |
| Revocation.RefusingSocketIsAddressedInSomeRun | backend/realtime/router.py:210-221 | a concrete run in which that happens |
| Revocation.RefusedSocketIsAddressedUntilSilenced | backend/realtime/router.py:210-221 | over any continuation of a refused join, the socket is addressed exactly until its worker acts on a revocation naming it or on a gap, drops it as dead, or cleans up |
| Revocation.RefusingStep | backend/realtime/manager.py:401-424 | the one-step form: which steps end the deliveries to a refused socket |
| Delivery.StepKeepsInv | backend/realtime/manager.py:500-523 | protocol steps, fan-outs and sends in any interleaving keep every pending send's account: what was not being refused when listed was stale to nothing acted on by then |
| Delivery.StaleSendWasListedBefore | backend/realtime/manager.py:500-523 | whenever a send starts to a socket stale to a revocation its worker has acted on, the socket was listed before the worker acted on it or while being refused |
| Delivery.StaleSocketIsSentToIff | backend/realtime/manager.py:500-523 | for every fan-out and every continuation: its send to such a socket can still start exactly when the socket could be served when listed, and the worker had not acted on the revocation by then or the socket was being refused |
| Delivery.SendWaits | backend/realtime/manager.py:513-523 | a listed send stays pending until it starts, whatever is revoked meanwhile |
| Delivery.LateSendReachesEvictedSocket | backend/realtime/manager.py:500-523 | a run in which a member of a room is listed, then evicted and marked, and then the send to them starts |
| Revocation.CaughtUpWorkerHasProcessedEverything | backend/realtime/manager.py:132-151 | a worker that is subscribed, has run the gap handler for its last drop and drained its inbox has acted on every revocation published so far |
| Revocation.UnservableStaysUnservable | backend/realtime/manager.py:253-280 | a socket that may not be served after its join may never be served again, even after leaving clears its mark |
| Revocation.IndexesAgreeInEveryRun | backend/realtime/manager.py:246-280 | the three indexes of every worker agree in every reachable state |
| Revocation.JoinKeepsWorker | backend/realtime/router.py:210-221 | join and re-check with no await between keep the invariant: a handshake that passes saw every processed revocation naming it |
| Revocation.MarkKeepsSockets | backend/realtime/manager.py:401-424 | acting on a revocation makes every stale socket it names unservable and puts every waiting handshake of its users behind |
| Revocation.GapKeepsSockets | backend/realtime/manager.py:132-151 | the gap handler does as much for all revocations committed so far |
| Broadcast.EachFrameIsAddressedOnce | backend/realtime/manager.py:454-506 | without gaps: the origin handles each of its frames exactly once, any other worker at most once and exactly once when it has received it; every handling addresses exactly the sockets tracked and unrevoked there at that moment, minus the excluded one on the origin |
| Broadcast.StepKeepsInv | backend/realtime/manager.py:212-244 | emitting, publishing, receiving and index changes keep every worker's account of every frame balanced |
| Relay.Track | backend/realtime/relay.py:144-192 | the order of events a supervisor may produce, with the delay each retry must sleep; that delay always lies between the initial and the largest one |
| Relay.OneGapPerDrop | backend/realtime/relay.py:162-192 | drops, resubscriptions and gap calls alternate one for one |
| Relay.GapBeforeNextPayload | backend/realtime/relay.py:186-192 | no payload is handled after a drop before the gap handler was called |
| Relay.RedisRelay.Listen | backend/realtime/relay.py:194-232 | hands over the decodable messages in order up to the poll at which the stream is given up; with polls at most 1 s apart it never outlives 22 s of silence, and it gives up on a silent stream only after 20 s |
| Relay.SilenceIsNoticed | backend/realtime/relay.py:197-213 | no poll a listener with prompt polls takes comes 22 s or more after the last traffic |
| Relay.SilenceIsReal | backend/realtime/relay.py:204-212 | a stream given up in silence has been silent for 20 s |
| Relay.RedisRelay.Retry | backend/realtime/relay.py:171-186 | appends a sleep of the due delay for every attempt up to the first that succeeds, doubling the delay up to the cap, and is up exactly when some attempt succeeds |
| Relay.RedisRelay.Supervise | backend/realtime/relay.py:144-192 | the log is the whole life the rounds determine; it is in order, never ends between a resubscription and its gap call, and the delay stays within its bounds |
| Relay.LifeInOrder | backend/realtime/relay.py:144-192 | streams, drops, retries and gap calls over any rounds come in the order the automaton allows |
| Relay.RetriesInOrder | backend/realtime/relay.py:171-186 | every retry sleeps exactly the delay that is due |
| Relay.PayloadsKeepStage | backend/realtime/relay.py:201-226 | messages of one stream never take the log out of order |
| Relay.PayloadsMeaning | backend/realtime/relay.py:218-226 | what is handed over is the payloads of the decodable messages, one each, in order |
| PresenceLocal.JoinKeepsTidy | backend/realtime/manager.py:580-590 | a join keeps timers and socketless entries the same thing, lists the user and adds the socket only there |
| PresenceLocal.LeaveKeepsTidy | backend/realtime/manager.py:609-625 | a leave keeps them the same thing and unlists nobody |
| PresenceLocal.ExpireKeepsTidy | backend/realtime/manager.py:634-643 | an expiry unlists exactly its user, and empty rooms go |
| PresenceLocal.Presence.Join | backend/realtime/manager.py:570-590 | the mutable view becomes what the join specification gives |
| PresenceLocal.Presence.Leave | backend/realtime/manager.py:595-625 | the mutable view becomes what the leave specification gives, the timer restarted |
| PresenceLocal.Presence.ExpireMember | backend/realtime/manager.py:627-647 | removes a socketless entry and says whether the shared store must hear of it |
| PresenceLocal.Presence.Entries | backend/realtime/manager.py:201-205 | the heartbeat's entries are exactly the listed users |
| PresenceLocal.TimersAreTheSocketlessMembers | backend/realtime/manager.py:615-643 | in every run the pending removals are exactly the listed users without sockets |
| PresenceLocal.ListedIffHeldOrWithinGrace | backend/realtime/manager.py:570-643 | in every run, whenever the user's removal is not due, the user is listed exactly when they hold a presence socket or their last one left less than the grace period ago |
| PresenceStore.RedisPresenceStore.Add | backend/realtime/presence_store.py:114-124 | payload and liveness written, both keys' expiry renewed |
| PresenceStore.RedisPresenceStore.RefreshMany | backend/realtime/presence_store.py:126-139 | all entries' liveness renewed as one pipeline |
| PresenceStore.RedisPresenceStore.Remove | backend/realtime/presence_store.py:141-155 | this worker's liveness goes, the payload only when no other worker keeps the user |
| PresenceStore.RedisPresenceStore.List | backend/realtime/presence_store.py:157-180 | the payloads of users some unexpired tag keeps alive; orphans are deleted |
| PresenceStore.TouchedAllMeaning | backend/realtime/presence_store.py:126-139 | refreshing entry by entry is the one pipeline of a heartbeat |
| PresenceStore.StepKeepsInv | backend/realtime/presence_store.py:114-180 | every store call, crash and passing of time keeps current holdings stored and stored tags backed by a holding |
| PresenceStore.MembersAreTheHeldUsers | backend/realtime/presence_store.py:157-180 | in every run the list is exactly the users a running worker has told the store it holds, plus those a crashed worker refreshed under one ttl ago, each with the payload last added |
| PresenceStore.CrashedWorkersUsersVanish | backend/realtime/manager.py:192-206 | a crashed worker's users are gone one ttl after its last refresh unless another worker holds them |
| PresenceStore.QueryHeals | backend/realtime/presence_store.py:169-178 | after a list the payloads left are exactly those listed |
| PresenceCluster.StepKeepsInv | backend/realtime/manager.py:570-648 | local updates, issued calls and calls that reach the store in order per user and room keep the store's belief, once all that is pending has come, equal to the local list |
| PresenceCluster.ReachIsAStep | backend/realtime/presence_store.py:114-155 | a call that comes in order does what the store's own machine does, on a user it has been told about |
| PresenceCluster.BeliefWithout | backend/realtime/manager.py:586-648 | calls about other users and rooms may overtake each other without effect |
| PresenceCluster.ShownIffPresent | backend/realtime/manager.py:556-648 | in every run, when nothing about a room and user is pending or due: the user is in the list exactly when they have a presence socket there on a running worker, or closed their last one on it less than the grace period ago, or a crashed worker reported them under one ttl ago |
| PresenceCluster.OvertakenRemoveHides | backend/realtime/presence_store.py:141-155 | a removal that comes after the rejoin issued behind it hides a user no other worker keeps |
| PresenceCluster.OvertakingHidesAUser | backend/realtime/manager.py:586-591 | for every grace period below the ttl, a run with calls out of order that ends with an open socket, nothing pending, and the user in no list |
| PresenceCluster.HiddenUntilJoin | backend/realtime/presence_store.py:126-155 | over any continuation, in order or not, a user whose payload is gone is in no list until a join of theirs to the room reaches the store; heartbeats do not bring them back |
| RefreshSessions.SessionTable.IssueSession | backend/routers/auth.py:166-186 | a fresh unrevoked session in the inherited family, or in a fresh one |
| RefreshSessions.SessionTable.ClaimRotation | backend/routers/auth.py:556-562 | the conditional update: it revokes and tags the row exactly when it was unrevoked, and says so |
| RefreshSessions.SessionTable.RevokeFamily | backend/routers/auth.py:523-530 | row by row: afterwards no session of the family is unrevoked, earlier stamps stay, and no other row is touched |
| RefreshSessions.SessionTable.StampEach | backend/routers/auth.py:662-671 | stamps every session that was read, whatever happened to it since |
| RefreshSessions.StepKeepsInv | backend/routers/auth.py:490-600 | every statement of every request keeps the lineage invariant |
| RefreshSessions.ClaimKeepsDb | backend/routers/auth.py:556-570 | a claim that goes through leaves its session the revoked tip of its family, sessions from before families included |
| RefreshSessions.IssueKeepsDb | backend/routers/auth.py:580 | the successor becomes the family's only unrevoked session, one rotation after its parent |
| RefreshSessions.AtMostOneUsableSession | backend/routers/auth.py:547-580 | in every interleaving a family has at most one session that is unrevoked or in flight between claim and issue |
| RefreshSessions.EveryFamilyIsAChain | backend/routers/auth.py:552-570 | of two sessions of a family one descends from the other, and no session gets two successors |
| RefreshSessions.RevokeLeavesNothingUsable | backend/routers/auth.py:510-531 | right after reuse detection no session of the family is usable, whatever is in flight |
| RefreshSessions.ReuseKillsTheFamilyIffNoneInFlight | backend/routers/auth.py:510-531 | over every continuation the family never has a usable session again, exactly when no rotation of it was in flight |
| RefreshSessions.ReplayMayMeetARotationInFlight | backend/routers/auth.py:510-580 | a new installation can come to a reuse detection whose family is used again afterwards |
| RefreshSessions.InFlightRotationSurvivesReuse | backend/routers/auth.py:556-580 | a rotation in flight at that moment can still issue a usable session of the family |
| RefreshSessions.DeadFamilyStaysDead | backend/routers/auth.py:510-580 | a family with no usable session and no rotation in flight never has one again |
| RefreshSessions.EverySuccessorWasEarned | backend/routers/auth.py:500-580 | every successor ever issued replaces a session its request had read known, unrevoked and unexpired, and later claimed while it was unrevoked; it inherits that session's user and family |
| RefreshSessions.RefusedTokenChangesNothing | backend/routers/auth.py:505-545 | an unknown or expired token, or one revoked within the grace, changes no row, and its request never makes another step in any run |
| RefreshSessions.DoubleSubmitIsSpared | backend/routers/auth.py:159-163 | over every continuation, a token presented within ten seconds of the step that revoked its session ends its request there and changes no row |
| RefreshSessions.ReplayIffPastGrace | backend/routers/auth.py:516-524 | while nothing else writes its row, a revoked session of a family is taken for a replay exactly when more than ten seconds have passed since the step that revoked it |
| RefreshSessions.RevokingStampsNow | backend/routers/auth.py:557-562 | rotation, logout, password change and reuse detection stamp what they revoke with the time of that moment |
| RefreshSessions.RevokedStaysRevoked | backend/routers/auth.py:491-600 | a revoked session is revoked in every later state |
| RefreshSessions.LogoutEndsTheSession | backend/routers/auth.py:588-597 | after a logout the presented session is never live again |
| RefreshSessions.LoginOpensAFamily | backend/routers/auth.py:166-186 | a login adds one live session in a family no session had before |
| RefreshSessions.RefusedTokenNeverYieldsASession | backend/routers/auth.py:505-545 | a request refused at the checks never comes to issue a session |
| RefreshSessions.ReplayEndsTheFamily | backend/routers/auth.py:510-540 | a revoked token replayed past the grace, with no rotation in flight, leaves the family without a usable session in every later state |
| RefreshSessions.PasswordChangeLogsOutIff | backend/routers/auth.py:628-673 | over every continuation without a new login the user has no live session, exactly when by the write every live session of theirs had been read and no rotation of theirs was in flight |
| RefreshSessions.PasswordChangeMayMissARotation | backend/routers/auth.py:662-673 | a new installation can come to a password change its user's session survives |
| RefreshSessions.PromptPasswordChangeLogsOutIff | backend/routers/auth.py:662-673 | with nothing between its read and its write, a password change logs its user out everywhere exactly when none of their rotations is in flight |
| AddressTokens.AccountStore.DropTokens | backend/routers/auth.py:778-783 | deletes exactly the user's tokens |
| AddressTokens.AccountStore.SetEmail | backend/routers/auth.py:835-867 | a new or cleared address resets the stamp and drops every outstanding link |
| AddressTokens.AccountStore.EditEmail | backend/routers/users.py:349-366 | an edit writes the columns that differ from what it loaded: a new address with the editor's stamp or none, links dropped; another spelling alone |
| AddressTokens.AccountStore.MintVerification | backend/routers/auth.py:206-225 | one outstanding verification token, bound to the address |
| AddressTokens.AccountStore.MintReset | backend/routers/auth.py:950-959 | a reset token bound to the stored address, good for an hour |
| AddressTokens.AccountStore.RedeemVerification | backend/routers/auth.py:1114-1149 | the stamp lands exactly when the account holds the address; then all its tokens go, otherwise only this one |
| AddressTokens.AccountStore.RedeemReset | backend/routers/auth.py:1039-1064 | the password is written exactly when the account holds the address; otherwise only this link goes |
| AddressTokens.RunKeepsTokens | backend/routers/auth.py:787-1151 | in every run tokens, and requests that read them, are bound to the address they were mailed to |
| AddressTokens.StepKeepsProven | backend/routers/auth.py:787-1151 | every step but an edit keeps verified addresses proven |
| AddressTokens.EditKeepsProvenIffHarmless | backend/routers/users.py:349-366 | an edit keeps them proven exactly when it writes no address, or writes the stamp too, or finds the row without one, or writes an address proven before |
| AddressTokens.UndisturbedEditIsHarmless | backend/routers/users.py:347-366 | an edit that finds the row as it loaded it is harmless, whoever makes it |
| AddressTokens.VerifiedMeansProven | backend/routers/auth.py:1096-1130 | in every interleaving, accounts with a verified address hold one that was proven for it in every state, exactly when every edit by an administrator or delegate was harmless when it wrote |
| AddressTokens.EditMayCarryAStamp | backend/routers/users.py:354-366 | a reachable account verified at an address nobody proved: a link is redeemed between the load and the write of a delegate's edit |
| AddressTokens.StampLandsIffAddressHeld | backend/routers/auth.py:1113-1145 | redeeming stamps an account exactly when it holds the address its link was mailed to, and changes no address or password |
| AddressTokens.LowerMeaning | backend/routers/auth.py:1123-1125 | comparing in lower case is comparing addresses letter by letter up to the case of A to Z |
| AddressTokens.ResetWritesOnlyWhileAddressHeld | backend/routers/auth.py:1037-1064 | a reset writes one password, exactly while the account holds the address the link was mailed to, and then retires its other links |
| AddressTokens.VerifiedAccountsHoldProvenAddresses | backend/routers/users.py:160-172 | every verified account has an address and it was proven for it, in every state of a run, exactly when every edit was harmless and no administrator vouched for an account without an address |
| AddressTokens.VouchedAccountWithoutAddressIsVerified | backend/routers/users.py:160-172 | a run in which one does, and the account is verified with no proven address |
| AddressLinks.VerificationIsSpent | backend/routers/auth.py:1131-1149 | over every continuation, a redeemed verification link is refused to whoever follows it later; one that landed takes all of the account's links with it, one that did not leaves all others |
| AddressLinks.ResetIsSpent | backend/routers/auth.py:1056-1066 | the same of reset links |
| AddressLinks.VerificationIsGoodForADay | backend/routers/auth.py:1103-1112 | a verification link passes the check exactly while it is outstanding and at most a day old |
| AddressLinks.ResetIsGoodForAnHour | backend/routers/auth.py:1027-1036 | a reset link, at most an hour |
| AddressLinks.OneVerificationLinkPerAccount | backend/routers/auth.py:200-225 | in every run an account has at most one outstanding verification link that can verify |
| AddressLinks.ChangeOfAddress | backend/routers/auth.py:827-868 | a change lands exactly unless it is refused or names the same address in another spelling; then the account holds the new address unverified, and its links are refused in every continuation, nobody else's touched |
| AddressLinks.EditEndsLinks | backend/routers/users.py:354-366 | an administrator's edit to another address ends the account's links |
| AddressLinks.DeletingEndsLinks | backend/routers/auth.py:778-783 | deleting an account ends its links, and nobody else's |
| AddressLinks.ResetIsMailedToTheHeldAddress | backend/routers/auth.py:933-958 | a reset is mailed exactly when the account still holds the address asked for, to its own spelling |
| AddressLinks.ResendingIsForTheUnverified | backend/routers/auth.py:1168-1186 | a verification link is sent again only to the unverified address an account has |
| ExternalIdentity.IdentityResolver.ResolveIdentity | backend/auth/external_identity.py:127-279 | link, first contact, refusal or new account, and that a refusal leaves everything as it was |
| ExternalIdentity.IdentityResolver.FindByEmail | backend/auth/external_identity.py:179-181 | an account holding the address in any letter case, or none when there is none |
| ExternalIdentity.LinkStays | backend/auth/external_identity.py:141-157 | a link survives every run its account survives |
| ExternalIdentity.SubjectKeepsItsAccount | backend/auth/external_identity.py:141-154 | a provider's subject resolves to the same account for as long as it exists, whatever happens to any address |
| ExternalIdentity.FirstContact | backend/auth/external_identity.py:159-207 | a first-contact link goes to an existing account exactly when the posture trusts the address and its holder has it verified; when refused nothing changes; a new account takes the address only when trusted |
| ExternalIdentity.UnbelievedAddressReachesNobody | backend/auth/external_identity.py:159-191 | on first contact an address an open provider does not assert as verified, a closed one is not authoritative for, or any other provider asserts, links no existing account: a new unverified account without address, or the site's refusal |
| ExternalIdentity.BelievedAddressFindsItsHolder | backend/auth/external_identity.py:159-207 | a believed address links its holder when verified, is a conflict when not, and makes a new verified account when nobody holds it |
| ExternalIdentity.LinkedLoginUpdatesItsLink | backend/auth/external_identity.py:148-154 | a linked login changes the address shown on its own link and nothing else |
| ExternalIdentity.FirstContactLinksProvenAddress | backend/auth/external_identity.py:168-191 | after any run of the account routes with harmless edits, a first-contact link to an existing account goes to one for which the asserted address was proven |
| ExternalIdentity.PolicyStopsOnlyNewOpenAccounts | backend/auth/external_identity.py:209-245 | site policy stops only new accounts of providers that are not closed, and those exactly when registration is closed or the allowlist misses the trusted address's domain |
| ExternalIdentity.AfterLastAtMeaning | backend/auth/registration_policy.py:16-18 | the domain is what follows the last at-sign |
| ExternalIdentity.DomainMatchesMeaning | backend/auth/registration_policy.py:19-22 | a domain is allowed by an entry that is that domain or one it lies under |
| RateLimiter.InMemoryRateLimiter.Hit | backend/ratelimit/memory.py:19-30 | prunes, decides and appends; the bucket and verdict of the deque specification |
| RateLimiter.InMemoryRateLimiter.ResetKey | backend/ratelimit/memory.py:32-33 | forgets exactly that key |
| RateLimiter.PruneMeaning | backend/ratelimit/memory.py:23-24 | pruning a sorted deque keeps exactly the hits after the cutoff, in order, and counts them |
| RateLimiter.DequeRefinesSpec | backend/ratelimit/memory.py:19-33 | on every trace with a clock that does not run back, the deque's verdicts are the full history's, and it stays sorted |
| RateLimiter.RejectedHitsDoNotCount | backend/ratelimit/memory.py:25-28 | of the full history both limiters are measured against: with all rejected hits deleted from a trace every other hit is still admitted and the history is the same |
| RateLimiter.DequeIgnoresRejectedHits | backend/ratelimit/memory.py:25-28 | the same of the deque |
| RateLimiter.RedisRateLimiter.Pipeline | backend/ratelimit/redis_limiter.py:47-52 | prune, add, count and expire as one atomic step |
| RateLimiter.RedisRateLimiter.Remove | backend/ratelimit/redis_limiter.py:58 | the late clean-up removes exactly the rejected member |
| RateLimiter.RedisRateLimiter.Hit | backend/ratelimit/redis_limiter.py:41-60 | both round trips with nothing between them |
| RateLimiter.RedisRateLimiter.ResetKey | backend/ratelimit/redis_limiter.py:62-63 | forgets exactly that key |
| RateLimiter.PipeKeepsInv | backend/ratelimit/redis_limiter.py:47-60 | a pipeline among others' unfinished clean-ups keeps every trailing window within the limit |
| RateLimiter.AtMostLimitInAnyWindow | backend/ratelimit/redis_limiter.py:41-63 | however pipelines and clean-ups interleave, between resets any trailing window holds at most the limit of admitted hits |
| RateLimiter.AdmittedIffRoomBesideRejected | backend/ratelimit/redis_limiter.py:47-60 | however hits and clean-ups interleave, a hit is admitted exactly when the admitted hits of its window and the rejected ones not yet cleaned up are together fewer than the limit |
| RateLimiter.RejectedHitMayExtendTheWindow | backend/ratelimit/base.py:26-28 | a run in which a hit is turned away with no admitted hit in its window, because a rejected one is still there |
| RateLimiter.PromptRedisAgreesWithMemory | backend/ratelimit/redis_limiter.py:53-60 | when each clean-up follows at once, the Redis verdicts are the in-memory limiter's on every trace |
| LoadOrder.ResolveLoadOrder | backend/plugins/loader.py:120-161 | ends on every input; gives an order exactly when ids are unique, dependencies exist and no module needs itself; the order is a permutation with dependencies first; each error names a real offender; a list already in order comes back unchanged |
| LoadOrder.Resolver.Visit | backend/plugins/loader.py:147-157 | finishes the module and all it needs, or reports a module that really needs itself |
| LoadOrder.Index | backend/plugins/loader.py:128-132 | the modules by id, or an id two of them carry |
| LoadOrder.CheckDependencies | backend/plugins/loader.py:134-137 | none exactly when every dependency exists, otherwise a dependency that does not and a module naming it |
| LoadOrder.OrderAll | backend/plugins/loader.py:143-161 | the third loop: an order of everything, or a cycle |
| LoadOrder.OrderExcludesCycles | backend/plugins/loader.py:120-127 | a dependency order and a cycle exclude each other |
| LoadOrder.SameIdsPermute | backend/plugins/loader.py:159-161 | the order loses, repeats and invents nothing |
| LoadOrder.ResolveTwice | backend/plugins/loader.py:120-161 | resolving what was resolved changes nothing |
| LoadOrder.InDependencyOrderMeaning | backend/plugins/loader.py:120-127 | in dependency order: no two manifests share an id, and each dependency of a module is the id of one before it |
| LoadOrder.UniqueIdsMeaning | backend/plugins/loader.py:128-132 | unique ids: no two manifests share one |
| Judge.Judge | backend/judge_harness/judge.go:20-64 | the result is the job's judgement, and what the runner was asked is exactly what that judgement needs: nothing after a lazy job's first failure |
| Judge.RunTest | backend/judge_harness/judge.go:66-106 | a test's end for any runner and files: a harness error, the verdict of how the run ended, or that of the comparison |
| Judge.CompileStep | backend/judge_harness/judge.go:23-45 | the result before any test, undecided exactly when compiling passed |
| Judge.AcceptedMeansEverythingPassed | backend/judge_harness/judge.go:13-19 | accepted exactly when compiling passed and every test ran and was accepted |
| Judge.AcceptedMeansRightAnswers | backend/judge_harness/judge.go:13-19 | accepted exactly when the program compiles and, on every test, ended of itself reporting success within its limits with an output that is the answer as the job compares them |
| Judge.ReportedVerdicts | backend/judge_harness/judge.go:95-105 | each result carries its test's name, and says right or wrong answer exactly when the program ended well and its output is or is not the answer; the nonce is the job's |
| Judge.GoodEndings | backend/judge_harness/judge.go:107-125 | a run is good exactly when its process ended of itself, reporting success, within its time, output and memory |
| Judge.CompilesMeaning | backend/judge_harness/judge.go:23-44 | compiling passes exactly when there is nothing to compile or the compiler ended the same way |
| Judge.CompileOutputMeaning | backend/judge_harness/judge.go:29-38 | what is shown of the compiler: at most 16 kB of its output, from its beginning, and a note at the end where it ran over |
| Judge.LazyResultsAreRunAllsUpToTheFirstFailure | backend/judge_harness/judge.go:47-60 | a lazy job's results are the run-all job's up to and including the first failure |
| Judge.LazyVerdictIsRunAlls | backend/judge_harness/judge.go:13-19 | lazy and run-all verdicts differ exactly when compiling passes and the tests' ends, run in order, have a first harness error with a failed test before it |
| Judge.LazyAndRunAllMayDiffer | backend/judge_harness/judge.go:46-60 | a job of two tests judged both ways with different verdicts |
| Judge.OneJudgement | backend/judge_harness/judge.go:20-64 | runner and files determine the result |
| Judge.OutputOnlyWhereAsked | backend/judge_harness/judge.go:88-91 | output is shown exactly for the tests that ask for it, and no more than the limit and its note |
| Judge.HiddenTestsDoNotShow | backend/judge_harness/job.go:37-42 | when shown tests come before hidden ones, the output shown does not depend on the hidden tests |
| Judge.TruncateText | backend/judge_harness/judge.go:133-138 | short text is kept, long text keeps its beginning and stays bounded |
| Judge.TimeComesFirst | backend/judge_harness/judge.go:107-125 | running out of time is a time limit whatever else went wrong, and what each other verdict implies |
| Judge.LooserLimitsForgiveOnlyWhatTheyBound | backend/judge_harness/judge.go:111-125 | loosening time and memory limits never turns an accepted run bad, and turns only time and memory verdicts good |
| CompareOutput.TokenModeComparesCanonicalForms | backend/judge_harness/compare.go:38-40 | comparing by tokens is equality of canonical forms: fields joined by one space, lowered when case does not matter |
| CompareOutput.CanonicalKeepsTokens | backend/judge_harness/compare.go:72-84 | splitting a canonical form gives back the tokens, and it is its own canonical form |
| CompareOutput.FieldsOfText | backend/judge_harness/compare.go:72-74 | however tokens are spaced out, splitting gives back those tokens |
| CompareOutput.EveryTextIsSpacedTokens | backend/judge_harness/compare.go:72-74 | and every text is its tokens, spaced out somehow |
| CompareOutput.TokenModeIsAnEquivalence | backend/judge_harness/compare.go:15-17 | comparing by tokens is reflexive, symmetric and transitive |
| CompareOutput.RespacingChangesNothing | backend/judge_harness/compare.go:15-17 | respacing output or answer changes no verdict but an exact one |
| CompareOutput.ExactThenTokensThenNumbers | backend/judge_harness/compare.go:26-41 | accepted exactly, then by tokens; accepted by tokens, then by numbers |
| CompareOutput.FloatModeIsMonotone | backend/judge_harness/compare.go:86-97 | what a tolerance accepts a larger one accepts |
| CompareOutput.NearMeaning | backend/judge_harness/compare.go:95-96 | numbers match within the tolerance scaled by the expected value where that exceeds one |
| CompareOutput.OneWayMatches | backend/judge_harness/compare.go:95-96 | two numbers match one way round only exactly when their difference lies above the tolerance scaled by the one and not above it scaled by the other |
| CompareOutput.ExactModeMeaning | backend/judge_harness/compare.go:31-33 | exact comparison accepts exactly texts with the same spaces in the same places and the same tokens |
| CompareOutput.SixBytesSeparate | backend/judge_harness/compare.go:65-70 | exactly six bytes separate tokens |
| CompareOutput.EqualMeaning | backend/judge_harness/compare.go:43-63 | equal byte by byte, or up to the case of A to Z where case does not matter |
| CompareOutput.FloatModeMeaning | backend/judge_harness/compare.go:34-37 | by numbers: as many tokens, each equal or both finite numbers within the tolerance scaled by the expected one |
| CompareOutput.FloatModeIsNotSymmetric | backend/judge_harness/compare.go:86-97 | output 1 matches the answer 2 to within a half, output 2 does not match the answer 1, for any parser that reads those two digits |
| CompareOutput.WordLength | backend/judge_harness/compare.go:65-70 | the maximal run of bytes that are not ASCII white space |
| CompareOutput.FieldsFold | backend/judge_harness/compare.go:46-63 | lowering letters moves no token boundary |
| Permissions.UserHasPermission | backend/auth/deps.py:128-170 | true exactly when the user holds the permission in the context |
| Permissions.EffectivePermissions | backend/auth/membership.py:20-49 | the site-wide set, united with a competition's, is exactly what the user holds there; the competitions listed are those the user has a role in |
| Permissions.HoldsByRows | backend/auth/deps.py:150-170 | the joined rows decide what the assignments grant |
| Permissions.AudienceIsHoldersAndMalformed | backend/auth/deps.py:173-201 | the audience is the holders and the users of malformed rows carrying the permission |
| Permissions.AudienceAgreesIffMalformedGrantsAreHeld | backend/auth/deps.py:178-186 | audience and holders are the same for everyone exactly when whatever a malformed row carries its user also holds site-wide, as when there is no such row |
| Permissions.AudienceMayDisagree | backend/auth/deps.py:143-148 | a table on which they differ |
| Permissions.PrivilegedPermissions | backend/auth/containment.py:28-38 | exactly the catalogued permissions taking the account over would confer |
| Permissions.HoldsEveryPermission | backend/auth/containment.py:41-46 | true exactly when the user holds the whole catalogue site-wide |
| Permissions.AssertMayManageAccount | backend/auth/containment.py:49-67 | passes exactly for oneself, or for an account whose takeover confers nothing the actor does not hold site-wide |
| Permissions.ManagingIsContained | backend/auth/containment.py:3-13 | whoever may manage another account holds, in every context, each catalogued permission above the floor that account holds there |
| Permissions.RefusalHasAReason | backend/auth/containment.py:57-67 | managing another account is refused exactly when the target holds a catalogued permission, site-wide or above the floor in some competition, that the actor lacks site-wide |
| Permissions.PlayersAreManageable | backend/auth/containment.py:9-13 | everyone may manage an account that only ever joined competitions |
| Permissions.ManagingIsTransitive | backend/auth/containment.py:3-13 | acting as a managed account to manage a third reaches nothing more |
| Permissions.TakeoverChainsAreContained | backend/auth/containment.py:3-13 | no chain of takeovers ends with a permission its first account does not hold |
| Permissions.AdministratorsManageEveryone | backend/auth/containment.py:11-13 | only holders of the whole catalogue manage such an account, and they may manage everyone |
| Permissions.SeeingIsActing | backend/auth/membership.py:94-126 | a user sees every competition exactly when some competition permission is held site-wide, and then acts with it in each |
| Permissions.Membership.EnsureParticipantRole | backend/auth/membership.py:52-78 | adds the row unless it is there or roles are unseeded, and says whether it did |
| Permissions.JoiningGivesTheFloor | backend/auth/membership.py:3-8 | joining gives exactly the participant floor, in that competition, to that user |
| Permissions.JoiningKeepsManagement | backend/auth/containment.py:28-38 | so joining changes nobody's power to manage an account |
| Permissions.JoiningTwiceIsJoiningOnce | backend/auth/membership.py:57-60 | granting the role again changes nothing |

## Left out

- Revocation: a frame already let through by `may_serve` is acted on after further awaits, so an eviction landing in between does not stop that one frame; giving up after the last publish retry; close and send timeouts, close codes and the staggered closes of a gap. The set of workers is fixed.
- Revocation: `room_socket` is a phase per handshake and steps on it, not a coroutine; rate limits, keepalive pings and frame sizes inside its loop are not part of it.
- ConnectionIndexes.ConnectionManager.EvictUsers: the sockets revoked form a set, not a list in order, and the closes and the publish that follow are not part of the method.
- Revocation.CaughtUpWorkerHasProcessedEverything: the broker is taken to deliver from the moment a subscribe call returns. The acknowledgement itself comes later, through the stream, and the gap handler does not wait for it.
- Delivery: how many sends run at a time, and their time limits; a send that was listed may start at any later moment.
- Broadcast: that a send succeeds; a socket is addressed, and dropped afterwards when its send fails.
- Relay: integer milliseconds; the gap handler is always given; a handler's own failures, which the loop only logs; a life is as long as the given script of polls and attempts.
- PresenceLocal: the payload kept with a user, and the list's order by name; a removal task fires at its due time, and time does not pass a due timer.
- PresenceStore: each store call is one atomic step, so other calls between the two round trips of `remove`, and of the lazy clean-up in `members`, are not modelled. User ids hold no separator, payloads decode, and the workers share one clock.
- PresenceCluster.ShownIffPresent: a worker's calls about one user and room reach the store in the order they were issued, which the code does not enforce; the broadcast of the list is not part of it.
- RefreshSessions: rows are never deleted, token hashing is injective, statements are atomic; the check that the user is active is a step that refuses. Password reset and bans revoke like a password change and add no step of their own.
- AddressTokens: an edit's new password is a step of its own; uniqueness, domain allowlists, active flags, trimming, letters beyond ASCII, mail delivery and throttles are left out.
- ExternalIdentity: logins are serialised; display names, events, white space around an address and the password of a new account.
- RateLimiter: integer time and one clock for all clients and the server; a key's limit and window do not change; pipelines run in timestamp order.
- LoadOrder: parsing manifests, finding them, and the check for disabled modules, which every manifest passes.
- Judge.Judge: the runner is fresh, as one harness process judges one job.
- Judge: running processes; files do not change while a job is judged, and the runner is a function of everything it was asked. `validate` and the JSON around a job.
- CompareOutput: parsing numbers is a parameter, and arithmetic is over the reals, without rounding and with a finite tolerance.
- Permissions: sorted lists are sets, the catalogue and the participant floor are parameters, and of `require_permission` only what it asks is modelled.
- Scoring, the automation engine, submissions, status tables, settings guards and CRUD routes.
