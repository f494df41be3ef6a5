# Whisper chat: a verified model of the matcher and its neighbours

Whisper pairs anonymous users for chat. This project models, in Dafny, the parts of its Go
server where state, time and concurrency meet, and proves what they keep over every run:

- the waiting queue in Redis with its three derived indexes and expiring keys, the four
  matching tiers, the matching pass, and runs of the matcher (`MatchQueue.dfy`,
  `MatchTiers.dfy`, `MatchPass.dfy`, `MatchRuns.dfy`, `InterestEncoding.dfy`);
- the accept handshake of a pending chat and its expiry (`ChatStore.dfy`, `ChatLifecycle.dfy`);
- the fixed-window counter and its two users, the rate limiter and the report/ban store
  (`FixedWindow.dfy`, `RateLimit.dfy`, `BanStore.dfy`);
- the keyword passes and the flood scanners of the content filter (`TextFields.dfy`,
  `KeywordFilter.dfy`, `Spam.dfy`);
- the connection registry under racing workers and removers (`ConnectionServer.dfy`);
- the per-chat ring buffer (`MessageBuffers.dfy`).

State that the source updates in place is a class whose methods are proved against a function
of the old state; the results about whole runs are lemmas over those functions.

## Conventions

- Times are milliseconds on one monotone clock. A Redis key is live while the clock is below
  its expiry. One pipeline or Lua script is one step with one clock reading, an `INCR` with
  its `EXPIRE` is one step, and no Redis call fails.
- There is a single matcher (docs/PERFORMANCE.md:832-834). What a whole pass achieves is proved
  for a pass with one clock reading and nothing in between; what holds in every run is proved
  with each visit of a pass, and each body of a cleanup, as a step of its own, between which
  users join and leave and time goes by.
- Session IDs and chat IDs (UUIDs) are fresh. Descriptor 0 is never a connection's, and it is what
  asking a closed socket for its descriptor gives (internal/ws/epoll.go:103-119).
- SHA-256 (FIPS 180-4) is a function parameter; "no collision among the lists in play" is a
  hypothesis where it is needed.
- The order of `SMEMBERS`, of a Go map range and of ties in `sort.Slice` is left open: the
  tier predicates admit every order, and every result holds for all of them.
- The matching tiers and the interest hash follow the code. README.md:110-116 of the
  repository describes fewer tiers, and ARCHITECTURE.md section 5 another hash format.

## What turned out to be conditional

Each of these is proved as an exact condition; where the code falls short, a lemma on a concrete
case shows it:

- Records outlive their owners' stay in the queue, and every stay ends in exactly one way, exactly
  when the last completed pass never began more than 30 s ago (`MatchRuns.GapBoundIsExact`,
  `MatchRuns.LedgerBoundIsExact`). A session whose record expired first is handed out as a partner
  and stays queued (`MatchRuns.StrandedIsHandedOut`); only a new request of its own frees it
  (`MatchRuns.StrandedUntilRejoin`). Neither bound needs any condition on the requests.
- Every queued session is found under its hash and tags as long as nobody asks for a tag with a
  comma (`MatchRuns.RunFindsEveryone`; the exact condition is `MatchRuns.CoverIsExact`). Nothing
  else is found there exactly when, in addition, a session that is already queued repeats its hash
  and drops no tag (`MatchQueue.EnqueueKeepsCoherence`, `MatchRuns.AgreementIsExact`;
  `MatchQueue.RejoinLeavesOldTag`). The server checks neither.
- The exact tier can join users with different interests in two ways. A tag with a comma shares its
  hash with the list of its pieces (`MatchTiers.ExactPair`; `MatchTiers.CommaTagMatchesExactly`). And
  a queued session that asks again with another hash is still offered for the former one
  (`MatchTiers.RejoinIsOffered`; `MatchTiers.RejoinMatchesExactly`); over runs the exact condition is
  `MatchRuns.TrueOffersIsExact`. Without the second, and without collisions, the candidates are
  exactly the sessions with the same sorted pieces (`MatchRuns.RunExactMatches`).
- Overlap matching counts entries of the user's list (`MatchTiers.OverlapMatchIsHeaviest`), which is
  the number of shared tags if the list has no repeats (`MatchTiers.OverlapMatchIsBest`) and need not
  be otherwise (`MatchTiers.RepeatedTagMisleads`). The server removes no repeats.
- `Dequeue` undoes `Enqueue` exactly for comma-free lists other than the one holding a single
  empty tag (`MatchQueue.DequeueUndoesEnqueue`, `MatchQueue.CommaTagStaysBehind`).
- No pending chat is lost to its key's time to live exactly when the last completed cleanup never
  began more than 45 s ago (`ChatLifecycle.CleanupGapIsExact`, with the run
  `ChatLifecycle.SilentRun`).
- A decline by a session outside the chat deletes it and neither user hears of it
  (`ChatLifecycle.DeclineHeard`, `ChatLifecycle.OutsiderDeclineIsSilent`).
- Counted reports never shorten a ban, the handler's cross-check against the stored reports can;
  the exact conditions are `BanStore.ReportShortensExactlyWhen` over runs and
  `BanStore.HandledShortensExactlyWhen` from any store, an instance `BanStore.FourthReportShortens`.
- A blocked word with any character that is neither letter nor digit can never match
  (`KeywordFilter.MatchableExactlyWhen`, `KeywordFilter.HyphenatedWordNeverMatches`).
- A worker handles only the connection it was started for exactly when its socket was not closed
  between reading its descriptor and looking it up (`ConnectionServer.OwnIsExact`); otherwise it can
  remove another user's connection (`ConnectionServer.WrongConnectionEvicted`).
- The single-interest tier never decides a match (`MatchPass.SingleTierIsRedundant`).

## Model

| member | source | states |
|---|---|---|
| `InterestEncoding.SortCanonical` | internal/matching/queue.go:46-48 | two lists sort to the same list exactly when they are equal as multisets |
| `InterestEncoding.LeqIsLexicographic` | internal/matching/queue.go:46-48 | the order of tags is dictionary order: smaller at the first difference, or a prefix |
| `InterestEncoding.DecodeJoin` | internal/matching/queue.go:78-128 | writing a list into the session record and reading it back gives the same list exactly when no tag has a comma and the list is not one empty tag |
| `InterestEncoding.LostTag` | internal/matching/queue.go:125-128 | a list fails to round-trip exactly when one of its own tags is missing from what is read back |
| `InterestEncoding.CanonicalIdentifies` | internal/matching/queue.go:45-52 | the digested strings of two lists are equal exactly when their sorted tags have the same comma-separated pieces; for lists that round-trip, exactly when the lists are equal as multisets |
| `InterestEncoding.CommaTagSharesHash` | internal/matching/queue.go:45-52 | the lists ["a,b"] and ["a", "b"] differ and have the same hash |
| `InterestEncoding.HashIdentifies` | internal/matching/queue.go:43-52 | order never changes the hash; among lists that round-trip and without collisions equal hashes mean equal multisets |
| `MatchQueue.Queue.Enqueue` | internal/matching/queue.go:55-87 | the whole store afterwards: queue score, hash set, tag sets, record and every expiry |
| `MatchQueue.Queue.Dequeue` | internal/matching/queue.go:90-112 | the whole store afterwards, including that nothing changes when the record is missing or expired |
| `MatchQueue.Queue.RefreshTTLs` | internal/matching/queue.go:176-190 | the whole store afterwards: only expiries of the session's own keys move |
| `MatchQueue.Queue.GetAllQueued` | internal/matching/queue.go:144-146 | every queued session exactly once, ordered by join time and then by ID |
| `MatchQueue.ZRangeUnique` | internal/matching/queue.go:144-146 | the queue has exactly one such order |
| `MatchQueue.JoinLastsAMinute` | internal/matching/queue.go:55-87 | left alone, a session that has joined is queued with the moment it joined, and its record, hash entry and tag entries are there for exactly 60 000 ms |
| `MatchQueue.RefreshLastsAMinute` | internal/matching/queue.go:176-190 | a refresh makes the record, hash entry and tag entries last for exactly 60 000 ms from then |
| `MatchQueue.QueuedIsFound` | internal/matching/queue.go:160-168 | in a covered store a queued session has a live record with its join time and is in the live sets of its hash and of each of its tags |
| `MatchQueue.IndexesEqualScan` | internal/matching/queue.go:160-168 | in a coherent store each hash set and tag set is exactly what a scan of the queue collects |
| `MatchQueue.HashSetsEqualScan` | internal/matching/queue.go:160-163 | while the hash index agrees with the queue each hash set is exactly what a scan collects, whatever the tag sets hold |
| `MatchQueue.EnqueueKeepsHashes` | internal/matching/queue.go:55-87 | the hash index still agrees with the queue exactly when a session that is queued already repeats its hash; no condition on its tags |
| `MatchQueue.EnqueueKeepsRecords` | internal/matching/queue.go:55-87 | a request with any tags leaves every queued session with a live record of its join time |
| `MatchQueue.EnqueueKeepsCover` | internal/matching/queue.go:55-87 | every queued session is still found under its hash and tags exactly when the pieces its list is read back as are sets it is in; tags without commas always do |
| `MatchQueue.EnqueueKeepsCoherence` | internal/matching/queue.go:55-87 | the indexes still agree with the queue and outlive the records exactly when the tags round-trip and a queued session repeats its hash and drops no tag |
| `MatchQueue.DequeueKeepsRecords` | internal/matching/queue.go:90-112 | while every queued session has its record, exactly the session leaves the queue and the other records are kept, whatever the indexes hold |
| `MatchQueue.DequeueKeepsCover` | internal/matching/queue.go:90-112 | removing one session leaves every other queued one in its index sets, although the sets are shared |
| `MatchQueue.DequeueKeepsCoherence` | internal/matching/queue.go:90-112 | from a coherent store the session disappears from the queue, records and every index, and everything else reads as before |
| `MatchQueue.DequeueKeepsHashes` | internal/matching/queue.go:90-112 | removing a session keeps the hash index in agreement with the queue |
| `MatchQueue.DequeueTakesEffect` | internal/matching/queue.go:91-97 | a queued session leaves the queue exactly when it is the one dequeued and its record is live |
| `MatchQueue.DequeueUndoesEnqueue` | internal/matching/queue.go:55-112 | for an absent session every later read is as before the pair of calls exactly when the list round-trips |
| `MatchQueue.CommaTagStaysBehind` | internal/matching/queue.go:104-128 | after joining with the tag "a,b" and leaving, the session is still in that tag's set |
| `MatchQueue.RejoinLeavesOldTag` | internal/matching/queue.go:55-87 | a second request with another tag while queued breaks the agreement of the indexes |
| `MatchQueue.RefreshKeepsCoherence` | internal/matching/queue.go:175-190 | refreshing keeps the store coherent, and every read gives what it gave before |
| `MatchQueue.RefreshKeepsHashes` | internal/matching/queue.go:175-190 | refreshing keeps the hash index in agreement with the queue |
| `MatchQueue.TimeKeepsCoherence` | internal/matching/queue.go:21-23 | expiry never removes a shared index key before a queued member's record |
| `MatchQueue.TimeKeepsHashes` | internal/matching/queue.go:21-23 | the hash index agrees with the queue until a queued session has waited out its record |
| `MatchQueue.RefreshKeepsCover` | internal/matching/queue.go:175-190 | refreshing one session's keys never shortens the life of another's index entries |
| `MatchQueue.TimeKeepsCover` | internal/matching/queue.go:21-23 | queued sessions stay in their live index sets until one has waited out its record |
| `MatchTiers.TryExactMatch` | internal/matching/exact.go:16-49 | a queued other session in the live set of the caller's hash with all own interests reported, or none exactly when there is none |
| `MatchTiers.TryOverlapMatch` | internal/matching/overlap.go:11-76 | a queued other session of maximal score with exactly the shared tags, sorted and once each, or none exactly when nobody queued shares a tag |
| `MatchTiers.TrySingleInterestMatch` | internal/matching/single.go:12-58 | a queued other session sharing a tag with the shared tags sorted, or none exactly when nobody queued shares a tag |
| `MatchTiers.TryRandomMatch` | internal/matching/random.go:11-36 | the longest-waiting other queued session, or none exactly when nobody else is queued |
| `MatchTiers.Tally` | internal/matching/overlap.go:17-36 | the scores map counts, for every other session, the occurrences of own tags it is indexed under, and the tag sets are those tags |
| `MatchTiers.RankByScore` | internal/matching/overlap.go:42-53 | every candidate once, scores never increasing |
| `MatchTiers.FirstQueued` | internal/matching/overlap.go:55-73 | a still queued candidate that no queued candidate outscores, or none exactly when no candidate is queued |
| `MatchTiers.Gather` | internal/matching/single.go:18-39 | the own tags each other session is indexed under, in order, for exactly the sessions with any |
| `MatchTiers.ScoreCountsTags` | internal/matching/overlap.go:17-36 | with distinct own tags a score is the number of shared tags |
| `MatchTiers.SharedTagsMeaning` | internal/matching/overlap.go:21-35 | in a coherent store the tags found through the indexes are those both users listed |
| `MatchTiers.ExactMatchIsExact` | internal/matching/exact.go:41-45 | while the hash index agrees with the queue, and without collisions, the exact candidates of a queued session are exactly the other queued ones whose list has the same sorted pieces; among lists that round-trip, the same interests; the session's own list is what is reported |
| `MatchTiers.ExactPair` | internal/matching/exact.go:16-49 | of two users asking one after the other the second is offered the first, without collisions, exactly when their sorted tags have the same comma-separated pieces, for all lists |
| `MatchTiers.RejoinIsOffered` | internal/matching/exact.go:27-46 | after a queued session asks again, whoever asks next is offered it exactly for the new hash or the former one |
| `MatchTiers.SameHashIsOffered` | internal/matching/exact.go:16-49 | whoever joins after a session with the same hash is offered it by the exact tier, with its own list as read back, whatever else is stored and whatever the lists |
| `MatchTiers.CommaTagMatchesExactly` | internal/matching/exact.go:16-49 | a tag with a comma lets the exact tier pair users with different interests |
| `MatchTiers.RejoinMatchesExactly` | internal/matching/exact.go:27-46 | a session that asked again with another interest while queued is still offered, as an exact match, to a user with the former one |
| `MatchTiers.OverlapMatchIsBest` | internal/matching/overlap.go:8-10 | no queued session shares more of the user's tags than the partner found, if those are distinct, and the list reported is their intersection |
| `MatchTiers.OverlapMatchIsHeaviest` | internal/matching/overlap.go:17-53 | for any own list no queued session matches more of its entries, repeats counted, than the partner found, and what is reported is their common tags, sorted and once each |
| `MatchTiers.SingleMatchReports` | internal/matching/single.go:40-58 | the partner is another queued session and what is reported is, sorted, every entry of the own list the partner listed too, at least one |
| `MatchTiers.RepeatedTagMisleads` | internal/matching/overlap.go:8-36 | with the own list ["a", "a", "a", "b", "c"] a session sharing one tag is found and one sharing two is not |
| `MatchTiers.TierOrdering` | internal/matching/service.go:161-189 | without collisions an exact match implies an overlap match exactly when the user has interests, any match implies a random one, and overlap and single-interest matching succeed together |
| `MatchPass.SingleTierIsRedundant` | internal/matching/service.go:175-181 | the outcomes of a visit are the same without the single-interest tier |
| `MatchPass.PairIsDue` | internal/matching/service.go:150-189 | from any store a pair before 10 s of waiting is exact, before 25 s exact or by a shared tag, and there is none after 30 s |
| `MatchPass.VisitPairsExactlyWhenDue` | internal/matching/service.go:138-194 | in a coherent store a visit times out exactly from 30 s on, and before that pairs exactly when another queued session has the same hash, or a common tag after 10 s, or is there at all after 25 s; the partner is such a one |
| `MatchPass.StrictestTierWins` | internal/matching/service.go:159-189 | a session with the same hash is preferred and all own interests reported; otherwise from 10 s on nobody matches more of the own list than the partner; only if that shares nothing, it is the one that has waited longest |
| `MatchPass.FindPartner` | internal/matching/service.go:159-189 | the partner comes from the first open tier that has one; none only if no open tier has; what that means for waits and lists is `PairIsDue`, `VisitPairsExactlyWhenDue` and `StrictestTierWins` |
| `MatchPass.HandleMatch` | internal/matching/service.go:197-217 | both users dequeued, one pending chat between them created, and both told; what they are told is `ResultNamesPartner` |
| `MatchPass.HandleTimeout` | internal/matching/service.go:220-233 | the user dequeued and told of the timeout |
| `MatchPass.ResultNamesPartner` | internal/matching/publisher.go:28-59 | a match result names the chat opened for the pair, the receiver's partner in that chat, the pair's shared interests and 15 s; a timeout goes to the session timed out |
| `MatchPass.Visit` | internal/matching/service.go:138-194 | one session of the snapshot: an outcome allowed in the current store, the store and chats it leads to, and the results published |
| `MatchPass.ProcessQueue` | internal/matching/service.go:130-195 | a pass over the whole queue, oldest first, each outcome allowed in the store the earlier ones left, and the resulting queue, chats and published results |
| `MatchPass.VisitRemoves` | internal/matching/service.go:191-206 | while queued sessions have their records, a visit removes exactly the queued sessions it names, whatever the indexes hold |
| `MatchPass.NoBlockingPair` | internal/matching/service.go:130-195 | if every queued session is found under its hash and tags, then after a pass no two remaining sessions have equal hashes, none that waited 10 s shares a tag with another, and none that waited 25 s has company; stale index entries do not matter |
| `MatchPass.PassPairsOnlyTheDue` | internal/matching/service.go:130-195 | a pass from a coherent store pairs only sessions with the same hash, with a common tag after 10 s, or after 25 s |
| `MatchPass.TimeoutsAreThePrefix` | internal/matching/service.go:150-157 | while queued sessions have their records, exactly those that waited 30 s time out; they are a prefix of the snapshot, so they leave before any pairing |
| `MatchPass.OutcomesDisjoint` | internal/matching/service.go:139-143 | while queued sessions have their records, no session is in two outcomes of a pass, and a pair joins two different queued sessions |
| `MatchPass.PassConservation` | internal/matching/service.go:130-233 | while queued sessions have their records, sessions before = sessions after + timeouts + two per pair |
| `MatchPass.PairsBecomeChats` | internal/matching/service.go:198-211 | a pass opens one fresh pending chat per pair between its two users, tracked under its deadline, and touches no other chat and no other tracking entry |
| `MatchPass.LeaversAreToldOnce` | internal/matching/publisher.go:28-64 | a pass publishes exactly one result to each session that leaves the queue and none to any other |
| `MatchPass.StrandedSurvives` | internal/matching/service.go:145-148 | a queued session without a live record survives any outcomes of a pass from any store |
| `MatchRuns.CleanStaleEntries` | internal/matching/cleanup.go:37-62 | every queued session that no longer exists is dequeued, in queue order |
| `MatchRuns.CleanRemoves` | internal/matching/cleanup.go:44-57 | while queued sessions have their records, the cleanup removes exactly the listed sessions that no longer exist, whatever the list |
| `MatchRuns.StepStaysTimely` | internal/matching/service.go:80-157 | any requests, cancellations, refreshes, single visits, cleanups, chat steps and time keep every queued session's record alive and every wait bounded while the last completed pass began at most 30 s ago |
| `MatchRuns.RunSafety` | internal/matching/queue.go:22-112 | in every reachable state of every run, whatever was requested, each queued session has a live record of its join time and has waited less than 30 s plus the gap |
| `MatchRuns.CoverIsExact` | internal/matching/queue.go:55-87 | throughout a run every queued session is found under its hash and tags exactly when every list was read back as sets its session was in |
| `MatchRuns.RunFindsEveryone` | internal/matching/queue.go:160-168 | in every run without comma tags each queued session of each reachable state is in the live sets of its hash and tags, also after asking again with other tags |
| `MatchRuns.AgreementIsExact` | internal/matching/queue.go:55-112 | throughout a run the store is coherent exactly when every requested list round-trips and no queued session changes its hash or drops a tag by asking again |
| `MatchRuns.RunIndexesEqualScan` | internal/matching/queue.go:160-168 | in such a run the index sets of every reachable state are exactly what a scan of the queue collects |
| `MatchRuns.HashAgreementIsExact` | internal/matching/queue.go:55-112 | throughout a run the hash sets are scans of the queue exactly when no queued session changes its hash by asking again, whatever happens to the tags |
| `MatchRuns.TrueOffersIsExact` | internal/matching/exact.go:16-49 | throughout a run the exact tier would offer whoever asks next only sessions waiting under the same hash, exactly when no queued session changes its hash |
| `MatchRuns.RunStaysAsked` | internal/matching/queue.go:55-87 | in every run each queued session waits with the list of its latest request, as record and as hash |
| `MatchRuns.RunExactMatches` | internal/matching/exact.go:16-49 | in a run in which no queued session changes its hash, and without collisions, the exact candidates of a queued session are exactly the others whose latest list has the same sorted pieces; among lists that round-trip, the same interests |
| `MatchRuns.UninterruptedPass` | internal/matching/service.go:138-194 | the visits of a pass that nothing interrupts add up to the pass of `ProcessQueue`, with its chats and its results |
| `MatchRuns.RunNoBlockingPair` | internal/matching/service.go:130-195 | after every uninterrupted pass of every run without comma tags no two sessions that should have met are both waiting |
| `MatchRuns.VisitLeavesNoBlockingPair` | internal/matching/service.go:138-194 | after every single visit of every run without comma tags the session visited and any other still queued have different hashes, no common tag from 10 s on, and less than 25 s of waiting |
| `MatchRuns.InterruptedPassLeavesNoBlockingPair` | internal/matching/service.go:130-195 | the same for any two sessions that stay queued through a pass without asking again, whatever else happens during it |
| `MatchRuns.RunPairsExactlyTheDue` | internal/matching/service.go:138-194 | every visit of every run of tidy requests times out exactly from 30 s on and before that pairs exactly when another queued session should be met by then |
| `MatchRuns.GapBoundIsExact` | internal/matching/queue.go:21-23 | no record of a queued session expires in any run, with any requests, exactly when the allowed age of the last completed pass is at most 30 s |
| `MatchRuns.StrandedUntilRejoin` | internal/matching/queue.go:95-97 | no step but its own new request frees a queued session whose record has expired |
| `MatchRuns.RunLedger` | internal/matching/service.go:80-233 | over any run, with any requests, a session's entries = matches + timeouts + cancellations + cleanups + one if it is waiting |
| `MatchRuns.StrandedIsHandedOut` | internal/matching/service.go:145-206 | for any gap over 30 s a run in which a session without a record is handed out as a partner, stays queued, and the ledger fails |
| `MatchRuns.LedgerBoundIsExact` | internal/matching/service.go:80-233 | the ledger balances in all runs exactly when the allowed age of the last completed pass is at most 30 s |
| `MatchRuns.MatchesBecomeChats` | internal/matching/service.go:197-217 | over any run the chats opened for a session are as many as its matches, the results published to it as many as its matches and timeouts |
| `MatchRuns.StayYieldsOneChat` | internal/matching/service.go:197-233 | chats opened for a session <= results sent to it <= its entries into the queue |
| `MatchRuns.FoundIsTrue` | internal/matching/publisher.go:28-59 | over any run every match result published names a chat whose two users are its receiver and the partner it names, and carries the shared interests of the visit that paired them and 15 s |
| `MatchRuns.FoundsAgree` | internal/matching/publisher.go:28-59 | over any run two results about one chat carry the same shared interests and name each other's receiver |
| `MatchRuns.PairsAreTold` | internal/matching/service.go:212-217 | over any run both results of every pair are among those published |
| `MatchRuns.MatchesAreSettled` | internal/matching/cleanup.go:64-100 | with the deadline cleanup at most 45 s apart, every chat a match has opened is still pending or was activated, refused, timed out or ended, in exactly one of these ways |
| `ChatStore.Store.CreatePending` | internal/chat/store.go:67-86 | the whole store afterwards: the pending chat, its time to live and its tracked deadline |
| `ChatStore.CreatedReadsBack` | internal/chat/store.go:67-86 | a new chat reads back as pending with its creation second and a deadline 15 s later until 60 000 ms have passed, is tracked under that deadline, and nothing else changes |
| `ChatStore.Store.AcceptMatch` | internal/chat/store.go:121-170 | the whole store afterwards and the return code, for missing, non-pending, foreign and completing calls |
| `ChatStore.Store.Delete` | internal/chat/store.go:131-137 | chat and tracking entry are gone, everything else is kept |
| `ChatStore.HandshakeState` | internal/chat/store.go:141-170 | after any calls the chat depends only on who has called; both flags are set exactly when it is active |
| `ChatStore.OrderIrrelevant` | internal/chat/store.go:141-170 | two call sequences by the same sessions lead to the same chat, whatever their order and repeats |
| `ChatStore.HandshakeCode` | internal/chat/store.go:114-128 | code 1 exactly at the call that completes the pair, -2 ever after, 0 for a user still waiting, -3 for outsiders; only the completing call moves the expiry, to two hours later |
| `ChatStore.OneActivation` | internal/chat/store.go:163-167 | exactly one call activates the chat if both distinct users call, none otherwise |
| `ChatLifecycle.AcceptMatch` | cmd/wsserver/main.go:376-432 | the store after the script; the call that activates is answered and the partner notified, nobody otherwise |
| `ChatLifecycle.AcceptNotesCount` | cmd/wsserver/main.go:384-424 | the call that activates answers its caller and notifies the caller's partner, once each; no other call does |
| `ChatLifecycle.DeclineMatch` | cmd/wsserver/main.go:437-458 | any live chat named is deleted and its partner notified |
| `ChatLifecycle.EndChat` | cmd/wsserver/main.go:579-608 | a live chat is deleted and partner_left published when the caller takes part in it, nothing otherwise |
| `ChatLifecycle.EndChatEnds` | cmd/wsserver/main.go:579-608 | a user's call makes a live chat of any status and its tracking entry disappear, with partner_left from that user and nothing else changed; anybody else's call changes and says nothing |
| `ChatLifecycle.DueChats` | internal/matching/cleanup.go:67-75 | exactly the tracked chats whose deadline has passed, once each |
| `ChatLifecycle.CleanChat` | internal/matching/cleanup.go:77-99 | a chat still pending is deleted and both users notified; it is untracked in any case |
| `ChatLifecycle.CleanExpiredPendingChats` | internal/matching/cleanup.go:66-100 | all due chats treated one after the other, with the notifications this sends |
| `ChatLifecycle.CleanupClears` | internal/matching/cleanup.go:66-100 | after a cleanup nothing that was due is tracked or pending, and everything that was not due, and every chat that was not pending, is as before |
| `ChatLifecycle.UninterruptedCleanup` | internal/matching/cleanup.go:77-99 | the cleanup steps of the run model, taken without interruption, are the cleanup, with its notifications |
| `ChatLifecycle.StepKeepsInv` | internal/chat/store.go:67-170 | every step keeps pending chats tracked under their own deadlines, alive, and overdue only while the running cleanup still has them on its list |
| `ChatLifecycle.RunSafety` | internal/chat/store.go:67-86 | in every reachable state a pending chat is alive and tracked under its own deadline, and a chat is active exactly when both flags are set |
| `ChatLifecycle.CleanupGapIsExact` | internal/matching/cleanup.go:66-100 | no pending chat expires unnoticed in any run exactly when the allowed age of the last completed cleanup is at most 45 s |
| `ChatLifecycle.SilentRun` | internal/matching/cleanup.go:66-100 | for any gap over 45 s a run in which a pending chat's key expires before a cleanup finds it due |
| `ChatLifecycle.ExactlyOneWayOut` | internal/matching/cleanup.go:64-100 | every chat created once is still pending or has left in exactly one way: activated, declined, timed out or ended |
| `ChatLifecycle.TimeoutsAreHeard` | internal/matching/cleanup.go:79-95 | over any run each user has been sent exactly one timed_out note for each of their chats that expired, and no other |
| `ChatLifecycle.ActivationsAreHeard` | cmd/wsserver/main.go:384-424 | over any run both users of a chat have been told of its activation exactly as often as it was activated |
| `ChatLifecycle.ActivationLasts` | internal/chat/store.go:163-167 | the completing call makes the chat active for 7 200 000 ms and changes no other |
| `ChatLifecycle.ActiveUntilEnded` | cmd/wsserver/main.go:437-608 | over any run, until its two hours are over an active chat is gone exactly when some step declined it or one of its users ended it, and is unchanged otherwise |
| `ChatLifecycle.CleanupSpeaksAndSpares` | internal/matching/cleanup.go:79-95 | a chat that times out is announced to both users; any other chat, even one accepted after the snapshot, is left as it was |
| `ChatLifecycle.DeclineHeard` | cmd/wsserver/main.go:446-460 | a decline removes the chat and its tracking entry and nothing else, and tells exactly the participant other than the decliner, or neither if an outsider declines |
| `ChatLifecycle.OutsiderDeclineIsSilent` | cmd/wsserver/main.go:446-460 | a stranger's decline deletes a pending chat and neither user is told |
| `FixedWindow.WindowOf` | internal/ratelimit/limiter.go:54-69 | an increment lies in its window, which began as many increments back as its count |
| `FixedWindow.FreshWindow` | internal/ratelimit/limiter.go:54-69 | after a silence of one window a new window begins and its increments count from one |
| `FixedWindow.FirstComeFirstServed` | internal/ratelimit/limiter.go:51-76 | a window of n requests allows exactly min(n, limit) |
| `FixedWindow.SpanBound` | internal/ratelimit/limiter.go:51-76 | no half-open span of one window length allows more than 2·limit - 1 requests |
| `FixedWindow.SpanBoundIsTight` | internal/ratelimit/limiter.go:60-69 | for every limit and window of at least 2 ms some run reaches the bound |
| `FixedWindow.KeysAreIndependent` | internal/ratelimit/limiter.go:52-54 | in any run over many keys a key's counter is that of its own increments |
| `RateLimit.Limiter.Allow` | internal/ratelimit/limiter.go:51-76 | the counters afterwards and the verdict |
| `RateLimit.Limiter.Remaining` | internal/ratelimit/limiter.go:81-98 | what is left in the live window, never below zero, the full limit without one |
| `RateLimit.AllowedIffRemaining` | internal/ratelimit/limiter.go:45-98 | a request is allowed exactly when some were remaining, and uses up one; when refused, none are remaining |
| `RateLimit.OthersMakeNoDifference` | internal/ratelimit/limiter.go:51-76 | in any run over many rules and identifiers the requests allowed are those a counter of the identifier's own requests would serve |
| `RateLimit.RunBound` | internal/ratelimit/limiter.go:51-76 | in any run over many rules and identifiers no window-length span allows an identifier more than 2·limit - 1 requests under a rule that shares its key with nothing else |
| `RateLimit.KeysNeverCollide` | internal/ratelimit/limiter.go:24-33 | under the three rules equal keys mean equal rules and identifiers |
| `RateLimit.StandingRules` | internal/ratelimit/limiter.go:24-33 | with the three rules mixed in any run: at most 9 messages in any 10 000 ms, 19 match requests and 9 connections in any 60 000 ms, for every identifier |
| `RateLimit.StandingQuotas` | internal/ratelimit/limiter.go:24-33 | with the three rules mixed in any run: after 10 000 ms without a message the first 5 within 10 000 ms are allowed and further ones refused; likewise 10 match requests and 5 connections in 60 000 ms |
| `BanStore.Store.IsBanned` | internal/ban/store.go:55-80 | banned while the ban key lives, with the seconds left as Redis rounds them and the reason |
| `BanStore.SecondsAreNearest` | internal/ban/store.go:67-78 | the seconds answered are the nearest to the time left |
| `BanStore.Store.Ban` | internal/ban/store.go:84-87 | the ban and its expiry replace any earlier one |
| `BanStore.Store.Unban` | internal/ban/store.go:90-93 | from then on the fingerprint is banned at no time; every other fingerprint is banned exactly when it was |
| `BanStore.UnbanIsNoAmnesty` | internal/ban/store.go:90-93 | Unban undoes Ban but keeps the report counter: the next report bans again at once exactly when two reports are still counted |
| `BanStore.Store.Escalate` | internal/ban/store.go:136-158 | the counter and the ban afterwards, the ban lasting the returned duration |
| `BanStore.Store.ReportAndCheck` | internal/ban/store.go:165-191 | the store afterwards; banned exactly from the third live report, then always for 24 h |
| `BanStore.BanLengths` | internal/ban/store.go:98-191 | right after the third counted report 86 400 s are left and before it nothing changes; an escalation leaves 900, 3 600 or 86 400 s by the number of offences; both count one offence |
| `BanStore.HandleReport` | cmd/wsserver/main.go:677-725 | the store after the handler's report and cross-check; banned exactly when the counter or the stored reports reach three, with the duration returned |
| `BanStore.FingerprintsAreIndependent` | internal/ban/store.go:165-179 | in any run over many fingerprints a fingerprint's counter is that of its own reports |
| `BanStore.BanNeedsThreeReports` | internal/ban/store.go:165-187 | a banning report is at least the third within the last 24 h |
| `BanStore.FourReportsBan` | internal/ban/store.go:165-191 | any four reports within 24 h include a banning one |
| `BanStore.ThreeReportsMayNotBan` | internal/ban/store.go:174-179 | three reports within 24 h over two windows can go unpunished |
| `BanStore.BannedExactlyWhen` | internal/ban/store.go:55-80 | in a run of reports against any fingerprints, decided by the counters, one is banned exactly when a banning report against it fell in the last 24 h |
| `BanStore.ReportsNeverShorten` | internal/ban/store.go:181-188 | in a run of counted reports against any fingerprints no ban's expiry ever moves earlier |
| `BanStore.ReportShortensExactlyWhen` | cmd/wsserver/main.go:677-707 | in any run of handled reports one brings a ban's end forward exactly when the stored reports bring the new ban, the counter has lapsed and more than an hour was left |
| `BanStore.EscalateShortensExactlyWhen` | internal/ban/store.go:136-158 | Escalate brings a ban's expiry forward exactly when it was over 15 min away with a lapsed counter, over 1 h away with a counter at one, or over 24 h away |
| `BanStore.HandledShortensExactlyWhen` | cmd/wsserver/main.go:677-707 | from any store the handler brings a ban's end forward exactly when it was over 1 h away with a lapsed counter and three stored reports, or over 24 h away and a new ban came |
| `BanStore.FourthReportShortens` | cmd/wsserver/main.go:677-707 | a fourth report as the window closes cuts a ban from 47 h to 25 h after the first report |
| `TextFields.TokensAreMaximalRuns` | internal/moderation/filter.go:173-193 | the tokens of a text are its maximal separator-free runs, each once, in order, and nothing else |
| `TextFields.FinerFields` | internal/moderation/filter.go:170-193 | splitting by more separators is splitting the tokens again |
| `KeywordFilter.NewFilterWithTerms` | internal/moderation/filter.go:39-57 | words are the normalised terms without spaces, phrases those with spaces, empty terms are dropped |
| `KeywordFilter.NormalizeLeet` | internal/moderation/filter.go:144-168 | every character replaced by its leet reading |
| `KeywordFilter.NormalisesExactly` | internal/moderation/filter.go:142-168 | a token normalises to a word exactly when each of its characters is a known spelling of the word's |
| `KeywordFilter.CheckTokens` | internal/moderation/filter.go:101-126 | blocked exactly when a token is a blocked word or a phrase occurs in the joined tokens, with a term that is to blame; `PhraseOccursExactlyWhen` says when a phrase occurs |
| `KeywordFilter.PhraseOccursExactlyWhen` | internal/moderation/filter.go:113-123 | a phrase occurs in the joined tokens exactly when consecutive tokens are its words, the first up to what it begins with and the last up to what it ends with |
| `KeywordFilter.CheckKeywords` | internal/moderation/filter.go:73-90 | blocked exactly when the plain or the normalised leet tokens are flagged |
| `KeywordFilter.VerdictExactlyWhen` | internal/moderation/filter.go:73-126 | a text is blocked exactly when a plain token is a blocked word, a leet token spells one, or consecutive plain tokens are or leet tokens spell the words of a blocked phrase |
| `KeywordFilter.LoadedVerdict` | internal/moderation/filter.go:39-126 | the same from the list of terms: those without spaces as words, those with spaces as phrases |
| `KeywordFilter.PlainTokensRefineLeetTokens` | internal/moderation/filter.go:170-193 | the plain tokens are the plain tokens of the leet tokens, in order |
| `KeywordFilter.SeparatorsInterchangeable` | internal/moderation/filter.go:73-90 | replacing a run of separators by any other leaves the verdict unchanged |
| `KeywordFilter.DisguisedWordBlocked` | internal/moderation/filter.go:82-90 | a text holding a delimited token of letters, digits, '@', '$' and '!' that spells a blocked word is blocked |
| `KeywordFilter.PhraseBlocked` | internal/moderation/filter.go:113-123 | a text holding the words of a blocked phrase in order, set apart by any runs of characters that are neither letters nor digits, is blocked |
| `KeywordFilter.DisguisedPhraseBlocked` | internal/moderation/filter.go:82-123 | the same for any spellings of the words in letters, digits, '@', '$' and '!' |
| `KeywordFilter.MatchableExactlyWhen` | internal/moderation/filter.go:44-54 | a stored word can match some text exactly when it is non-empty and all letters and digits |
| `KeywordFilter.HyphenatedWordNeverMatches` | internal/moderation/filter.go:44-54 | a filter loaded with the one term "a-b" blocks no text |
| `Spam.HasCharFlood` | internal/moderation/spam.go:48-65 | true exactly when five consecutive characters are equal |
| `Spam.HasWordFlood` | internal/moderation/spam.go:71-96 | true exactly when three whitespace-delimited words in a row differ in nothing but case, character by character |
| `ConnectionServer.ConnectionManager.Add` | internal/ws/connection.go:55-60 | both maps updated; they stay inverse if neither key was taken |
| `ConnectionServer.ConnectionManager.Remove` | internal/ws/connection.go:65-78 | both entries of the connection gone, the connection returned once, the maps still inverse |
| `ConnectionServer.ConnectionManager.RemoveByFd` | internal/ws/connection.go:83-97 | both entries of the connection gone, the connection returned once, the maps still inverse |
| `ConnectionServer.StepKeepsInv` | internal/ws/server.go:251-374 | every step of every thread keeps the maps inverse, descriptors owned, guards exclusive, slots bounded and each connection in one stage of its life |
| `ConnectionServer.LookupFindsOwner` | internal/ws/connection.go:109-114 | in every interleaving the maps are inverse and a lookup by descriptor finds its current owner |
| `ConnectionServer.DisconnectOnce` | internal/ws/server.go:360-376 | the disconnect callback of a connection runs at most once, and is never lost: one thread still has it before it, or it has run |
| `ConnectionServer.ClosedBeforeCallback` | internal/ws/server.go:360-383 | in every interleaving a connection whose callback has run or is next, or that was dropped quietly, has had its socket closed |
| `ConnectionServer.CallbackWasAskedFor` | internal/ws/server.go:360-383 | in every interleaving the callback runs only after a removal by a worker or through `RemoveConnection`, never for a removal by descriptor alone |
| `ConnectionServer.GuardAndPool` | internal/ws/server.go:251-280 | at most one thread is past a connection's guard, it is a worker, a set flag has the thread that clears it, and workers never exceed the pool |
| `ConnectionServer.OwnIsExact` | internal/ws/server.go:270-293 | throughout a run a worker looks up, guards, removes and reports only the connection it was started for exactly when its socket is still open whenever its lookup finds something |
| `ConnectionServer.WrongConnectionEvicted` | internal/ws/connection.go:118-121 | a run in which a descriptor is reused between reading it and looking it up, and a worker removes another, open connection |
| `MessageBuffers.PushUnrolls` | internal/chat/buffer.go:50-54 | overwriting the oldest slot and advancing keeps the newest five messages in order |
| `MessageBuffers.Ring.Push` | internal/chat/buffer.go:50-54 | the ring holds the last five of what it held and the new message |
| `MessageBuffers.Ring.Read` | internal/chat/buffer.go:68-74 | the ring's messages, oldest first |
| `MessageBuffers.MessageBuffer.Add` | internal/chat/buffer.go:38-55 | the chat's buffer gains the message and keeps the last five; other chats are unaffected |
| `MessageBuffers.MessageBuffer.Get` | internal/chat/buffer.go:59-75 | the chat's messages, oldest first, empty without a buffer |
| `MessageBuffers.MessageBuffer.Remove` | internal/chat/buffer.go:78-83 | the chat's buffer is gone; other chats are unaffected |
| `MessageBuffers.BufferRefinesHistory` | internal/chat/buffer.go:36-83 | after any operations on any chats a buffer holds the last five messages since the chat's latest removal |

## Left out

- Redis, NATS and PostgreSQL clients, their failures and retries: only the effects on keys, sets and expiries are modelled.
- The single reads and writes inside one visit of a pass or one body of a cleanup, and the gap between `INCR` and `EXPIRE`: each is one step here, so interleavings inside them are not covered.
- `joined_at` is kept as an integer; its passage through a decimal string and a float64 is exact for the times in question and not modelled.
- HandshakeState: the calls reach a chat that is still alive; an expired or deleted chat answers -1, as `AcceptMatch` states.
- The disconnect handler's removal of an active chat, which acts on the store like `end_chat`.
- BannedExactlyWhen: runs in which the stored reports never reach the threshold before the counter does; what the cross-check does to a ban is `ReportShortensExactlyWhen`. How PostgreSQL counts the stored reports is a parameter.
- `Shutdown`, the heartbeat's choice of connections, epoll, WebSocket framing (section 5 of RFC 6455) and the non-Linux fallback where every descriptor is -1.
- The URL and phone patterns, the default blocklist, Unicode case folding and letter classes: texts are lowercase already, and letters and digits are a parameter.
- `CheckInterests`, metrics, JSON, message dispatch, session records and subscriptions: they pass data on and keep no state that the results above depend on.
