/**
 One matching pass (internal/matching/service.go): a walk over a snapshot of the queue
 that times sessions out and pairs them, tier by tier, while the queue shrinks under it.
 A pass is one step with one clock reading, and there is a single matcher.
 */
module MatchPass {
  import opened Redis
  import opened InterestEncoding
  import opened MatchQueue
  import opened MatchTiers
  import ChatStore

  const TIER1_MAX_WAIT := 10_000
  const TIER2_MAX_WAIT := 20_000
  const TIER3_MAX_WAIT := 25_000
  const MATCH_TIMEOUT := 30_000

  /** What the pass did at one session of the snapshot. */
  datatype Outcome = Skipped | Unmatched | TimedOut(sid: string) | Paired(pair: MatchCandidate)

  /** What is published to a session: its partner and the chat to accept, or that its time
      is up. */
  datatype MatchResult =
    | Found(to: string, chatID: string, partner: string, sharedInterests: seq<string>, acceptSeconds: int)
    | Timeout(to: string)

  // ----- one visit -----

  ghost predicate NoneFound(s: Store, sid: string, wait: int) {
    && IsExactResult(s, sid, None)
    && (wait >= TIER1_MAX_WAIT ==> IsOverlapResult(s, sid, None))
    && (wait >= TIER2_MAX_WAIT ==> IsSingleResult(s, sid, None))
    && (wait >= TIER3_MAX_WAIT ==> IsRandomResult(s, sid, None))
  }

  /** m comes from the first tier open at this wait that finds a partner. */
  ghost predicate FoundBy(s: Store, sid: string, wait: int, m: MatchCandidate) {
    if !IsExactResult(s, sid, None) then IsExactResult(s, sid, Some(m))
    else if wait >= TIER1_MAX_WAIT && !IsOverlapResult(s, sid, None) then IsOverlapResult(s, sid, Some(m))
    else if wait >= TIER2_MAX_WAIT && !IsSingleResult(s, sid, None) then IsSingleResult(s, sid, Some(m))
    else wait >= TIER3_MAX_WAIT && IsRandomResult(s, sid, Some(m))
  }

  /** The single-interest tier never decides anything: by the time it opens, overlap matching
      has already accepted every candidate it could find. */
  lemma SingleTierIsRedundant(s: Store, sid: string, wait: int, m: MatchCandidate)
    ensures FoundBy(s, sid, wait, m) <==>
              if !IsExactResult(s, sid, None) then IsExactResult(s, sid, Some(m))
              else if wait >= TIER1_MAX_WAIT && !IsOverlapResult(s, sid, None) then IsOverlapResult(s, sid, Some(m))
              else wait >= TIER3_MAX_WAIT && IsRandomResult(s, sid, Some(m))
    ensures NoneFound(s, sid, wait) <==>
              && IsExactResult(s, sid, None)
              && (wait >= TIER1_MAX_WAIT ==> IsOverlapResult(s, sid, None))
              && (wait >= TIER3_MAX_WAIT ==> IsRandomResult(s, sid, None))
  {
  }

  ghost predicate Allowed(s: Store, sid: string, o: Outcome) {
    if sid !in s.queue || GetEntry(s, sid).None? then o == Skipped
    else
      var wait := s.now - GetEntry(s, sid).value.joinedAt;
      if wait >= MATCH_TIMEOUT then o == TimedOut(sid)
      else match o
        case Unmatched => NoneFound(s, sid, wait)
        case Paired(m) => FoundBy(s, sid, wait, m)
        case _ => false
  }

  function Apply(s: Store, o: Outcome): Store {
    match o
    case TimedOut(sid) => Dequeued(s, sid)
    case Paired(m) => Dequeued(Dequeued(s, m.sessionA), m.sessionB)
    case _ => s
  }

  // ----- the pass -----

  function After(s: Store, outs: seq<Outcome>): Store {
    if outs == [] then s else Apply(After(s, outs[..|outs| - 1]), outs[|outs| - 1])
  }

  /** Each outcome is allowed in the store the earlier ones left behind. */
  ghost predicate Walk(s: Store, ids: seq<string>, outs: seq<Outcome>) {
    && |outs| == |ids|
    && forall i :: 0 <= i < |ids| ==> Allowed(After(s, outs[..i]), ids[i], outs[i])
  }

  /** The snapshot is the whole queue, oldest first. */
  ghost predicate IsPass(s: Store, ids: seq<string>, outs: seq<Outcome>) {
    IsZRange(s.queue, s.queue.Keys, ids) && Walk(s, ids, outs)
  }

  lemma WalkExtends(s: Store, ids: seq<string>, outs: seq<Outcome>, sid: string, o: Outcome)
    requires Walk(s, ids, outs) && Allowed(After(s, outs), sid, o)
    ensures Walk(s, ids + [sid], outs + [o])
    ensures After(s, outs + [o]) == Apply(After(s, outs), o)
  {
    hide Allowed, Apply;
    assert (outs + [o])[..|outs|] == outs;
    assert forall i :: 0 <= i < |outs| ==> (outs + [o])[..i] == outs[..i];
  }

  function Open(db: ChatStore.Db, o: Outcome, id: string): ChatStore.Db {
    if o.Paired? then ChatStore.Created(db, id, o.pair.sessionA, o.pair.sessionB) else db
  }

  /** The chat store after the outcomes: a pending chat for each pair, under the ID drawn
      at that visit. */
  function ChatsAfter(db: ChatStore.Db, outs: seq<Outcome>, newID: nat -> string): ChatStore.Db {
    if outs == [] then db
    else Open(ChatsAfter(db, outs[..|outs| - 1], newID), outs[|outs| - 1], newID(|outs| - 1))
  }

  /** What the outcome makes the matcher publish. */
  function Results(o: Outcome, chatID: string): seq<MatchResult> {
    match o
    case TimedOut(sid) => [Timeout(sid)]
    case Paired(m) =>
      [Found(m.sessionA, chatID, m.sessionB, m.sharedInterests, ChatStore.ACCEPT_SECONDS),
       Found(m.sessionB, chatID, m.sessionA, m.sharedInterests, ChatStore.ACCEPT_SECONDS)]
    case _ => []
  }

  function ResultsAfter(outs: seq<Outcome>, newID: nat -> string): seq<MatchResult> {
    if outs == [] then []
    else ResultsAfter(outs[..|outs| - 1], newID) + Results(outs[|outs| - 1], newID(|outs| - 1))
  }

  method HandleMatch(q: Queue, chats: ChatStore.Store, chatID: string, m: MatchCandidate)
    returns (sent: seq<MatchResult>)
    modifies q, chats
    ensures q.State() == Apply(old(q.State()), Paired(m))
    ensures chats.State() == ChatStore.Created(old(chats.State()), chatID, m.sessionA, m.sessionB)
    ensures sent == Results(Paired(m), chatID)
  {
    q.Dequeue(m.sessionA);
    q.Dequeue(m.sessionB);
    chats.CreatePending(chatID, m.sessionA, m.sessionB);
    sent := [Found(m.sessionA, chatID, m.sessionB, m.sharedInterests, 15)];
    sent := sent + [Found(m.sessionB, chatID, m.sessionA, m.sharedInterests, 15)];
  }

  method HandleTimeout(q: Queue, sid: string) returns (sent: seq<MatchResult>)
    modifies q
    ensures q.State() == Apply(old(q.State()), TimedOut(sid))
    ensures sent == [Timeout(sid)]
  {
    q.Dequeue(sid);
    sent := [Timeout(sid)];
  }

  method FindPartner(q: Queue, sid: string, wait: int) returns (m: Option<MatchCandidate>)
    ensures m.None? ==> NoneFound(q.State(), sid, wait)
    ensures m.Some? ==> FoundBy(q.State(), sid, wait, m.value)
  {
    m := TryExactMatch(q, sid);
    if m.None? && wait >= TIER1_MAX_WAIT {
      m := TryOverlapMatch(q, sid);
    }
    if m.None? && wait >= TIER2_MAX_WAIT {
      m := TrySingleInterestMatch(q, sid);
    }
    if m.None? && wait >= TIER3_MAX_WAIT {
      m := TryRandomMatch(q, sid);
    }
  }

  method Visit(q: Queue, chats: ChatStore.Store, sid: string, chatID: string)
    returns (o: Outcome, sent: seq<MatchResult>)
    modifies q, chats
    ensures Allowed(old(q.State()), sid, o)
    ensures q.State() == Apply(old(q.State()), o)
    ensures chats.State() == Open(old(chats.State()), o, chatID)
    ensures sent == Results(o, chatID)
  {
    var entry := GetEntry(q.State(), sid);
    if sid !in q.queue || entry.None? {
      return Skipped, [];
    }
    var wait := q.now - entry.value.joinedAt;
    if wait >= MATCH_TIMEOUT {
      sent := HandleTimeout(q, sid);
      return TimedOut(sid), sent;
    }
    var m := FindPartner(q, sid, wait);
    if m.None? {
      return Unmatched, [];
    }
    sent := HandleMatch(q, chats, chatID, m.value);
    return Paired(m.value), sent;
  }

  /** newID stands for the random UUIDs. */
  method ProcessQueue(q: Queue, chats: ChatStore.Store, newID: nat -> string)
    returns (ids: seq<string>, outs: seq<Outcome>, sent: seq<MatchResult>)
    modifies q, chats
    ensures IsPass(old(q.State()), ids, outs)
    ensures q.State() == After(old(q.State()), outs)
    ensures chats.State() == ChatsAfter(old(chats.State()), outs, newID)
    ensures sent == ResultsAfter(outs, newID)
  {
    hide Allowed, Apply, Open, Results;
    ghost var s, db := q.State(), chats.State();
    ids := q.GetAllQueued();
    outs, sent := [], [];
    for i := 0 to |ids|
      invariant q.State() == After(s, outs)
      invariant chats.State() == ChatsAfter(db, outs, newID)
      invariant sent == ResultsAfter(outs, newID)
      invariant Walk(s, ids[..i], outs)
    {
      var o, more := Visit(q, chats, ids[i], newID(i));
      WalkExtends(s, ids[..i], outs, ids[i], o);
      assert (outs + [o])[..|outs|] == outs;
      assert ids[..i + 1] == ids[..i] + [ids[i]];
      outs, sent := outs + [o], sent + more;
    }
    assert ids[..|ids|] == ids;
  }

  // ----- what a visit takes out of the queue -----

  function Gone(o: Outcome): set<string> {
    match o
    case TimedOut(sid) => {sid}
    case Paired(m) => {m.sessionA, m.sessionB}
    case _ => {}
  }

  lemma PairIsQueued(s: Store, sid: string, m: MatchCandidate)
    requires Allowed(s, sid, Paired(m))
    ensures m.sessionA == sid && m.sessionB != sid && sid in s.queue && m.sessionB in s.queue
  {
  }

  /** s' is s without the sessions in gone, as far as the queue and the records go. */
  ghost predicate Shrunk(s: Store, s': Store, gone: set<string>) {
    && s'.now == s.now
    && s'.queue == s.queue - gone
    && forall x :: x in s'.queue ==> x in s'.records && x in s.records && s'.records[x] == s.records[x]
  }

  lemma ShrunkByNone(s: Store)
    requires Recorded(s)
    ensures Shrunk(s, s, {})
  {
    assert s.queue - {} == s.queue;
    assert forall x :: x in s.queue ==> HasRecord(s, x);
  }

  lemma ShrunkTwice(s: Store, s1: Store, s2: Store, gone1: set<string>, gone2: set<string>)
    requires Shrunk(s, s1, gone1) && Shrunk(s1, s2, gone2)
    ensures Shrunk(s, s2, gone1 + gone2)
  {
    assert s.queue - gone1 - gone2 == s.queue - (gone1 + gone2);
  }

  lemma ShrunkKeepsRecords(s: Store, s': Store, gone: set<string>)
    requires Recorded(s) && Shrunk(s, s', gone)
    ensures Recorded(s')
  {
    forall x | x in s'.queue ensures HasRecord(s', x) {
      assert HasRecord(s, x);
    }
  }

  /** While queued sessions have their records, a visit removes the sessions it names, all
      of them queued, and nobody else. */
  lemma VisitRemoves(s: Store, sid: string, o: Outcome)
    requires Recorded(s) && Allowed(s, sid, o)
    ensures Gone(o) <= s.queue.Keys
    ensures Shrunk(s, Apply(s, o), Gone(o)) && Recorded(Apply(s, o))
  {
    hide Recorded;
    match o
    case TimedOut(_) =>
      DequeueKeepsRecords(s, sid);
    case Paired(m) =>
      PairIsQueued(s, sid, m);
      DequeueKeepsRecords(s, m.sessionA);
      DequeueKeepsRecords(Dequeued(s, m.sessionA), m.sessionB);
      ShrunkTwice(s, Dequeued(s, m.sessionA), Apply(s, o), {m.sessionA}, {m.sessionB});
      assert {m.sessionA} + {m.sessionB} == Gone(o);
    case _ => ShrunkByNone(s);
  }

  /** Whatever a visit does, those still queued can still be found. */
  lemma ApplyKeepsCover(s: Store, o: Outcome)
    requires Covered(s)
    ensures Covered(Apply(s, o))
  {
    hide Covered, Dequeued;
    match o
    case TimedOut(sid) => DequeueKeepsCover(s, sid);
    case Paired(m) =>
      DequeueKeepsCover(s, m.sessionA);
      DequeueKeepsCover(Dequeued(s, m.sessionA), m.sessionB);
    case _ =>
  }

  lemma ApplyKeepsCoherence(s: Store, o: Outcome)
    requires Coherent(s)
    ensures Coherent(Apply(s, o))
  {
    hide Coherent, Dequeued, Absent;
    match o
    case TimedOut(sid) => DequeueKeepsCoherence(s, sid);
    case Paired(m) =>
      DequeueKeepsCoherence(s, m.sessionA);
      DequeueKeepsCoherence(Dequeued(s, m.sessionA), m.sessionB);
    case _ =>
  }

  lemma {:induction false} AfterKeepsCover(s: Store, outs: seq<Outcome>)
    requires Covered(s)
    ensures Covered(After(s, outs))
  {
    hide Covered, Apply;
    if outs != [] {
      AfterKeepsCover(s, outs[..|outs| - 1]);
      ApplyKeepsCover(After(s, outs[..|outs| - 1]), outs[|outs| - 1]);
    }
  }

  function GoneAll(outs: seq<Outcome>): set<string> {
    if outs == [] then {} else GoneAll(outs[..|outs| - 1]) + Gone(outs[|outs| - 1])
  }

  lemma {:induction false} GoneAllMember(outs: seq<Outcome>, x: string)
    ensures x in GoneAll(outs) <==> exists i :: 0 <= i < |outs| && x in Gone(outs[i])
  {
    if outs != [] {
      var init := outs[..|outs| - 1];
      GoneAllMember(init, x);
      assert forall i :: 0 <= i < |init| ==> init[i] == outs[i];
    }
  }

  lemma PrefixStep(s: Store, outs: seq<Outcome>, n: nat)
    requires n < |outs|
    ensures After(s, outs[..n + 1]) == Apply(After(s, outs[..n]), outs[n])
    ensures GoneAll(outs[..n + 1]) == GoneAll(outs[..n]) + Gone(outs[n])
    ensures Timeouts(outs[..n + 1]) == Timeouts(outs[..n]) + if outs[n].TimedOut? then 1 else 0
    ensures Pairs(outs[..n + 1]) == Pairs(outs[..n]) + if outs[n].Paired? then 1 else 0
  {
    assert outs[..n + 1][..n] == outs[..n];
  }

  lemma ChatsPrefixStep(db: ChatStore.Db, outs: seq<Outcome>, newID: nat -> string, n: nat)
    requires n < |outs|
    ensures ChatsAfter(db, outs[..n + 1], newID) == Open(ChatsAfter(db, outs[..n], newID), outs[n], newID(n))
    ensures ResultsAfter(outs[..n + 1], newID) == ResultsAfter(outs[..n], newID) + Results(outs[n], newID(n))
  {
    assert outs[..n + 1][..n] == outs[..n];
  }

  lemma AllowedAt(s: Store, ids: seq<string>, outs: seq<Outcome>, i: nat)
    requires IsPass(s, ids, outs) && i < |outs|
    ensures |ids| == |outs| && Allowed(After(s, outs[..i]), ids[i], outs[i])
  {
    hide Allowed, After;
  }

  lemma PassStep(s: Store, ids: seq<string>, outs: seq<Outcome>, n: nat)
    requires IsPass(s, ids, outs) && n < |outs|
    requires Recorded(After(s, outs[..n])) && Shrunk(s, After(s, outs[..n]), GoneAll(outs[..n]))
    ensures Shrunk(s, After(s, outs[..n + 1]), GoneAll(outs[..n + 1]))
  {
    hide *;
    AllowedAt(s, ids, outs, n);
    PrefixStep(s, outs, n);
    VisitRemoves(After(s, outs[..n]), ids[n], outs[n]);
    ShrunkTwice(s, After(s, outs[..n]), After(s, outs[..n + 1]), GoneAll(outs[..n]), Gone(outs[n]));
  }

  /** Throughout a pass the queue and the records lose exactly the sessions that the
      outcomes so far have named. */
  lemma {:induction false} DuringPass(s: Store, ids: seq<string>, outs: seq<Outcome>, n: nat)
    requires Recorded(s) && IsPass(s, ids, outs) && n <= |outs|
    ensures Shrunk(s, After(s, outs[..n]), GoneAll(outs[..n]))
    ensures Recorded(After(s, outs[..n])) && After(s, outs[..n]).now == s.now
  {
    hide Recorded, Allowed, Apply, Gone, IsPass;
    if n == 0 {
      ShrunkByNone(s);
    } else {
      DuringPass(s, ids, outs, n - 1);
      PassStep(s, ids, outs, n - 1);
    }
    ShrunkKeepsRecords(s, After(s, outs[..n]), GoneAll(outs[..n]));
  }

  lemma QueuedAt(s: Store, ids: seq<string>, outs: seq<Outcome>, n: nat, x: string)
    requires Recorded(s) && IsPass(s, ids, outs) && n <= |outs|
    ensures x in After(s, outs[..n]).queue <==> x in s.queue && forall j :: 0 <= j < n ==> x !in Gone(outs[j])
    ensures x in After(s, outs[..n]).queue ==> After(s, outs[..n]).queue[x] == s.queue[x]
  {
    hide Recorded, Allowed, Apply, Gone, IsPass, After, GoneAll;
    DuringPass(s, ids, outs, n);
    GoneAllMember(outs[..n], x);
    assert forall j :: 0 <= j < n ==> outs[..n][j] == outs[j];
  }

  /** The queue only loses members as a pass goes on. */
  lemma StillQueued(s: Store, ids: seq<string>, outs: seq<Outcome>, i: nat, x: string)
    requires Recorded(s) && IsPass(s, ids, outs) && i <= |outs|
    requires x in After(s, outs).queue
    ensures x in s.queue && x in After(s, outs[..i]).queue
    ensures i < |outs| ==> x !in Gone(outs[i])
  {
    hide Recorded, Allowed, Apply, Gone, IsPass, After;
    assert outs[..|outs|] == outs;
    QueuedAt(s, ids, outs, |outs|, x);
    QueuedAt(s, ids, outs, i, x);
  }

  // ----- who should meet -----

  /** Same hash, a common tag after ten seconds, or any company after twenty-five. */
  ghost predicate Blocking(s: Store, x: string, y: string, wait: int)
    requires x in s.records && y in s.records
  {
    || HashOf(s, x) == HashOf(s, y)
    || (wait >= 10_000 && exists t :: t in TagsOf(s, x) && t in TagsOf(s, y))
    || wait >= 25_000
  }

  lemma BlockingTransfers(s: Store, s': Store, x: string, y: string, wait: int, wait': int)
    requires x in s.records && y in s.records && x in s'.records && y in s'.records
    requires s'.records[x].value == s.records[x].value && s'.records[y].value == s.records[y].value
    requires Blocking(s', x, y, wait') && wait' <= wait
    ensures Blocking(s, x, y, wait)
  {
    hide Decode;
    assert TagsOf(s', x) == TagsOf(s, x) && TagsOf(s', y) == TagsOf(s, y);
  }

  // ----- no blocking pair survives -----

  /** What it means for a visit to find nobody while y is waiting too. */
  lemma UnmatchedMeans(s: Store, x: string, y: string, wait: int)
    requires Covered(s) && x in s.queue && y in s.queue && x != y
    requires NoneFound(s, x, wait)
    ensures x in s.records && y in s.records && HashOf(s, x) != HashOf(s, y)
    ensures wait >= TIER1_MAX_WAIT ==> forall t :: t in TagsOf(s, x) ==> t !in TagsOf(s, y)
    ensures wait < TIER3_MAX_WAIT
  {
    QueuedIsFound(s, x);
    QueuedIsFound(s, y);
    assert !ExactCandidate(s, x, y);
    if wait >= TIER1_MAX_WAIT {
      forall t | t in TagsOf(s, x) ensures t !in TagsOf(s, y) {
        if t in TagsOf(s, y) {
          CommonTag(s, x, y, t);
        }
      }
    }
  }

  lemma UnmatchedVisit(s: Store, x: string, o: Outcome)
    requires Recorded(s) && x in s.queue && Allowed(s, x, o) && x !in Gone(o)
    ensures NoneFound(s, x, s.now - s.queue[x])
  {
    assert HasRecord(s, x);
    if o.Paired? {
      PairIsQueued(s, x, o.pair);
      assert false;
    }
  }

  /** Same hash, a common tag after ten seconds, or any company after twenty-five: a pass
      leaves no two such sessions waiting. Stale index entries do not matter. */
  lemma NoBlockingPair(s: Store, ids: seq<string>, outs: seq<Outcome>, x: string, y: string)
    requires Covered(s) && IsPass(s, ids, outs)
    requires x in After(s, outs).queue && y in After(s, outs).queue && x != y
    ensures x in s.queue && y in s.queue && x in s.records && y in s.records
    ensures HashOf(s, x) != HashOf(s, y)
    ensures s.now - s.queue[x] >= TIER1_MAX_WAIT ==> forall t :: t in TagsOf(s, x) ==> t !in TagsOf(s, y)
    ensures s.now - s.queue[x] < TIER3_MAX_WAIT
  {
    hide Allowed, Apply, Gone, NoneFound, Decode, Indexed;
    StillQueued(s, ids, outs, 0, x);
    var i :| 0 <= i < |ids| && ids[i] == x;
    var s' := After(s, outs[..i]);
    StillQueued(s, ids, outs, i, x);
    StillQueued(s, ids, outs, i, y);
    DuringPass(s, ids, outs, i);
    AllowedAt(s, ids, outs, i);
    AfterKeepsCover(s, outs[..i]);
    UnmatchedVisit(s', x, outs[i]);
    assert s'.queue[x] == s.queue[x];
    UnmatchedMeans(s', x, y, s.now - s.queue[x]);
    assert TagsOf(s', x) == TagsOf(s, x) && TagsOf(s', y) == TagsOf(s, y);
  }

  // ----- nobody else is paired -----

  /** From any store a pair comes from the exact tier before ten seconds of waiting, from
      that or a shared tag before twenty-five, and never after thirty. */
  lemma PairIsDue(s: Store, sid: string, m: MatchCandidate)
    requires Allowed(s, sid, Paired(m))
    ensures GetEntry(s, sid).Some?
    ensures var wait := s.now - GetEntry(s, sid).value.joinedAt;
      && wait < 30_000
      && (wait < 10_000 ==> ExactCandidate(s, sid, m.sessionB))
      && (wait < 25_000 ==> ExactCandidate(s, sid, m.sessionB) || TagCandidate(s, sid, m.sessionB))
  {
  }

  lemma TagMeansCommonTag(s: Store, sid: string, x: string)
    requires Coherent(s) && sid in s.queue && TagCandidate(s, sid, x)
    ensures sid in s.records && x in s.records && exists t :: t in TagsOf(s, sid) && t in TagsOf(s, x)
  {
    CoherentIsCovered(s);
    QueuedIsFound(s, sid);
    QueuedIsFound(s, x);
    SharedTagsMeaning(s, sid, x);
    var t :| t in SharedTags(s, TagsOf(s, sid), x);
    assert t in TagsOf(s, sid) && t in TagsOf(s, x);
  }

  lemma PairBlocks(s: Store, sid: string, m: MatchCandidate)
    requires Coherent(s) && Allowed(s, sid, Paired(m))
    ensures sid in s.queue && m.sessionB in s.queue && sid in s.records && m.sessionB in s.records
    ensures Blocking(s, sid, m.sessionB, s.now - s.queue[sid])
  {
    hide Coherent, Allowed, TagCandidate, ExactCandidate, Decode;
    PairIsQueued(s, sid, m);
    PairIsDue(s, sid, m);
    CoherentIsCovered(s);
    CoherentHashes(s);
    QueuedIsFound(s, sid);
    QueuedIsFound(s, m.sessionB);
    ExactMeansSameHash(s, sid, m.sessionB);
    if TagCandidate(s, sid, m.sessionB) {
      TagMeansCommonTag(s, sid, m.sessionB);
    }
  }

  ghost predicate HasCompany(s: Store, sid: string, wait: int)
    requires sid in s.records
  {
    exists y :: y in s.queue && y != sid && y in s.records && Blocking(s, sid, y, wait)
  }

  /** In a coherent store the outcome of a visit follows from the wait and the others' lists:
      thirty seconds time out; before that there is a pair exactly when somebody queued
      should be met, and the partner is such a one. */
  lemma VisitPairsExactlyWhenDue(s: Store, sid: string, o: Outcome)
    requires Coherent(s) && sid in s.queue && Allowed(s, sid, o)
    ensures sid in s.records
    ensures var wait := s.now - s.queue[sid];
      && (o == TimedOut(sid) <==> wait >= 30_000)
      && (o.Paired? <==> wait < 30_000 && HasCompany(s, sid, wait))
      && (o.Unmatched? <==> wait < 30_000 && !HasCompany(s, sid, wait))
      && (o.Paired? ==> o.pair.sessionB in s.records && Blocking(s, sid, o.pair.sessionB, wait))
  {
    var wait := s.now - s.queue[sid];
    CoherentIsCovered(s);
    QueuedIsFound(s, sid);
    if o.Paired? {
      PairIsQueued(s, sid, o.pair);
      PairIsDue(s, sid, o.pair);
      PairBlocks(s, sid, o.pair);
    } else if o.Unmatched? {
      hide Coherent, Decode, NoneFound;
      forall y | y in s.queue && y != sid && y in s.records ensures !Blocking(s, sid, y, wait) {
        UnmatchedMeans(s, sid, y, wait);
      }
    }
  }

  /** The strictest tier with anybody to offer decides: a session with the same hash comes
      first; then, from ten seconds on, the one that matches most entries of the user's
      list; only when nobody shares anything the one that has waited longest. */
  lemma StrictestTierWins(s: Store, sid: string, m: MatchCandidate, y: string)
    requires Coherent(s) && Allowed(s, sid, Paired(m))
    requires y in s.queue && y != sid
    ensures var x := m.sessionB;
      && sid in s.records && x in s.records && y in s.records && x in s.queue
      && (HashOf(s, y) == HashOf(s, sid) ==> HashOf(s, x) == HashOf(s, sid) && m.sharedInterests == TagsOf(s, sid))
      && (HashOf(s, x) != HashOf(s, sid) && s.now - s.queue[sid] >= 10_000 ==>
            Occurrences(TagsOf(s, sid), TagsOf(s, y)) <= Occurrences(TagsOf(s, sid), TagsOf(s, x)))
      && (HashOf(s, x) != HashOf(s, sid) && Occurrences(TagsOf(s, sid), TagsOf(s, x)) == 0 ==>
            s.queue[x] <= s.queue[y] && m.sharedInterests == [])
  {
    var x, wait := m.sessionB, s.now - s.queue[sid];
    PairIsQueued(s, sid, m);
    CoherentIsCovered(s);
    CoherentHashes(s);
    QueuedIsFound(s, sid);
    QueuedIsFound(s, x);
    QueuedIsFound(s, y);
    hide Coherent, Decode, Occurrences;
    ExactMeansSameHash(s, sid, x);
    ExactMeansSameHash(s, sid, y);
    ScoreCountsOccurrences(s, TagsOf(s, sid), x);
    ScoreCountsOccurrences(s, TagsOf(s, sid), y);
    SharedListMembers(s, TagsOf(s, sid), x);
    SharedListMembers(s, TagsOf(s, sid), y);
    assert TagCandidate(s, sid, y) <==> Score(s, TagsOf(s, sid), y) > 0;
    TierOf(s, sid, wait, m);
  }

  /** Which tier a pair comes from. */
  lemma TierOf(s: Store, sid: string, wait: int, m: MatchCandidate)
    requires FoundBy(s, sid, wait, m)
    ensures || IsExactResult(s, sid, Some(m))
            || (IsExactResult(s, sid, None) && wait >= 10_000 && IsOverlapResult(s, sid, Some(m)))
            || (IsExactResult(s, sid, None) && IsOverlapResult(s, sid, None) && IsRandomResult(s, sid, Some(m)))
  {
    SingleTierIsRedundant(s, sid, wait, m);
  }

  lemma {:induction false} AfterKeepsCoherence(s: Store, outs: seq<Outcome>)
    requires Coherent(s)
    ensures Coherent(After(s, outs))
  {
    hide Coherent, Apply;
    if outs != [] {
      AfterKeepsCoherence(s, outs[..|outs| - 1]);
      ApplyKeepsCoherence(After(s, outs[..|outs| - 1]), outs[|outs| - 1]);
    }
  }

  lemma CoherentIsRecorded(s: Store)
    requires Coherent(s)
    ensures Recorded(s)
  {
  }

  /** A pass from a coherent store pairs only sessions that should meet. */
  lemma PassPairsOnlyTheDue(s: Store, ids: seq<string>, outs: seq<Outcome>, i: nat)
    requires Coherent(s) && IsPass(s, ids, outs) && i < |outs| && outs[i].Paired?
    ensures var x, y := outs[i].pair.sessionA, outs[i].pair.sessionB;
      && x in s.queue && y in s.queue && x in s.records && y in s.records
      && Blocking(s, x, y, s.now - s.queue[x])
  {
    hide Coherent, Allowed, Apply, Recorded, IsPass, Decode, Blocking;
    var s', m := After(s, outs[..i]), outs[i].pair;
    CoherentIsRecorded(s);
    AllowedAt(s, ids, outs, i);
    DuringPass(s, ids, outs, i);
    AfterKeepsCoherence(s, outs[..i]);
    PairIsQueued(s', ids[i], m);
    PairBlocks(s', ids[i], m);
    hide After, GoneAll;
    assert s'.queue[ids[i]] == s.queue[ids[i]];
    BlockingTransfers(s, s', m.sessionA, m.sessionB, s.now - s.queue[m.sessionA], s.now - s.queue[m.sessionA]);
  }

  // ----- the ledger of a pass -----

  lemma TimedOutVisit(s: Store, sid: string, o: Outcome)
    requires Recorded(s) && Allowed(s, sid, o)
    ensures o.TimedOut? ==> o == TimedOut(sid) && sid in s.queue && s.now - s.queue[sid] >= MATCH_TIMEOUT
    ensures sid in s.queue && s.now - s.queue[sid] >= MATCH_TIMEOUT ==> o == TimedOut(sid)
  {
    assert sid in s.queue ==> HasRecord(s, sid);
  }

  lemma {:induction false} OldestTimeOut(s: Store, ids: seq<string>, outs: seq<Outcome>, i: nat)
    requires Recorded(s) && IsPass(s, ids, outs)
    requires i < |ids| && s.now - s.queue[ids[i]] >= MATCH_TIMEOUT
    ensures forall j :: 0 <= j <= i ==> outs[j] == TimedOut(ids[j])
  {
    hide Recorded, Allowed, Apply, After, GoneAll, Shrunk;
    if i > 0 {
      assert Before(s.queue, ids[i - 1], ids[i]);
      OldestTimeOut(s, ids, outs, i - 1);
    }
    DuringPass(s, ids, outs, i);
    QueuedAt(s, ids, outs, i, ids[i]);
    AllowedAt(s, ids, outs, i);
    TimedOutVisit(After(s, outs[..i]), ids[i], outs[i]);
  }

  /** Exactly the sessions that have waited thirty seconds time out; they are a prefix of
      the snapshot, so all of them leave before anything is paired. */
  lemma TimeoutsAreThePrefix(s: Store, ids: seq<string>, outs: seq<Outcome>)
    requires Recorded(s) && IsPass(s, ids, outs)
    ensures forall i :: 0 <= i < |ids| ==>
              (outs[i] == TimedOut(ids[i]) <==> s.now - s.queue[ids[i]] >= 30_000)
    ensures forall i, j :: 0 <= i <= j < |ids| && outs[j].TimedOut? ==> outs[i] == TimedOut(ids[i])
  {
    hide Recorded, Allowed, Apply, After, GoneAll;
    forall i | 0 <= i < |ids|
      ensures outs[i] == TimedOut(ids[i]) <==> s.now - s.queue[ids[i]] >= MATCH_TIMEOUT
      ensures outs[i].TimedOut? ==> forall j :: 0 <= j <= i ==> outs[j] == TimedOut(ids[j])
    {
      DuringPass(s, ids, outs, i);
      AllowedAt(s, ids, outs, i);
      TimedOutVisit(After(s, outs[..i]), ids[i], outs[i]);
      if s.now - s.queue[ids[i]] >= MATCH_TIMEOUT {
        OldestTimeOut(s, ids, outs, i);
      }
    }
  }

  lemma OutcomeFresh(s: Store, ids: seq<string>, outs: seq<Outcome>, j: nat)
    requires Recorded(s) && IsPass(s, ids, outs) && j < |outs|
    ensures Gone(outs[j]) <= s.queue.Keys
    ensures forall i :: 0 <= i < j ==> Gone(outs[i]) !! Gone(outs[j])
  {
    hide Recorded, Allowed, Apply, Gone;
    DuringPass(s, ids, outs, j);
    AllowedAt(s, ids, outs, j);
    VisitRemoves(After(s, outs[..j]), ids[j], outs[j]);
    forall i, x | 0 <= i < j && x in Gone(outs[j]) ensures x !in Gone(outs[i]) {
      GoneAllMember(outs[..j], x);
      assert outs[..j][i] == outs[i];
    }
  }

  /** No session is named by two outcomes, and a pair joins two different queued sessions. */
  lemma OutcomesDisjoint(s: Store, ids: seq<string>, outs: seq<Outcome>)
    requires Recorded(s) && IsPass(s, ids, outs)
    ensures forall i :: 0 <= i < |outs| ==> Gone(outs[i]) <= s.queue.Keys
    ensures forall i, j :: 0 <= i < j < |outs| ==> Gone(outs[i]) !! Gone(outs[j])
    ensures forall i :: 0 <= i < |outs| && outs[i].Paired? ==>
              outs[i].pair.sessionA == ids[i] && outs[i].pair.sessionA != outs[i].pair.sessionB
  {
    hide Recorded, Allowed, Apply, Gone;
    forall j | 0 <= j < |outs|
      ensures Gone(outs[j]) <= s.queue.Keys
      ensures forall i :: 0 <= i < j ==> Gone(outs[i]) !! Gone(outs[j])
      ensures outs[j].Paired? ==>
                outs[j].pair.sessionA == ids[j] && outs[j].pair.sessionA != outs[j].pair.sessionB
    {
      OutcomeFresh(s, ids, outs, j);
      AllowedAt(s, ids, outs, j);
      if outs[j].Paired? {
        PairIsQueued(After(s, outs[..j]), ids[j], outs[j].pair);
      }
    }
  }

  function Timeouts(outs: seq<Outcome>): nat {
    if outs == [] then 0
    else Timeouts(outs[..|outs| - 1]) + if outs[|outs| - 1].TimedOut? then 1 else 0
  }

  function Pairs(outs: seq<Outcome>): nat {
    if outs == [] then 0
    else Pairs(outs[..|outs| - 1]) + if outs[|outs| - 1].Paired? then 1 else 0
  }

  lemma VisitCount(s: Store, sid: string, o: Outcome)
    requires Recorded(s) && Allowed(s, sid, o)
    ensures |s.queue| == |Apply(s, o).queue| + (if o.TimedOut? then 1 else 0) + (if o.Paired? then 2 else 0)
  {
    hide Recorded, Apply;
    VisitRemoves(s, sid, o);
    assert Apply(s, o).queue.Keys == s.queue.Keys - Gone(o);
    if o.Paired? {
      PairIsQueued(s, sid, o.pair);
    }
  }

  lemma {:induction false} ConservationUpTo(s: Store, ids: seq<string>, outs: seq<Outcome>, n: nat)
    requires Recorded(s) && IsPass(s, ids, outs) && n <= |outs|
    ensures |s.queue| == |After(s, outs[..n]).queue| + Timeouts(outs[..n]) + 2 * Pairs(outs[..n])
  {
    hide Recorded, Allowed, Apply, Gone, GoneAll, IsPass, Shrunk;
    if n > 0 {
      hide After, Timeouts, Pairs;
      ConservationUpTo(s, ids, outs, n - 1);
      DuringPass(s, ids, outs, n - 1);
      PrefixStep(s, outs, n - 1);
      AllowedAt(s, ids, outs, n - 1);
      VisitCount(After(s, outs[..n - 1]), ids[n - 1], outs[n - 1]);
    }
  }

  /** Sessions before the pass = sessions after + timeouts + two per pair. */
  lemma PassConservation(s: Store, ids: seq<string>, outs: seq<Outcome>)
    requires Recorded(s) && IsPass(s, ids, outs)
    ensures |s.queue| == |After(s, outs).queue| + Timeouts(outs) + 2 * Pairs(outs)
  {
    ConservationUpTo(s, ids, outs, |outs|);
    assert outs[..|outs|] == outs;
  }

  /** IDs that are new and never drawn twice. */
  ghost predicate FreshIDs(db: ChatStore.Db, newID: nat -> string, n: nat) {
    && (forall i: nat :: i < n ==> newID(i) !in db.chats && newID(i) !in db.tracking)
    && (forall i: nat, j: nat :: i < j < n ==> newID(i) != newID(j))
  }

  /** A pending chat between the two, with its time to live and its tracked deadline. */
  ghost predicate OpenedAt(db: ChatStore.Db, db': ChatStore.Db, m: MatchCandidate, id: string) {
    && id in db'.chats && db'.chats[id] == ChatStore.NewChat(db.now, m.sessionA, m.sessionB)
    && id in db'.tracking && db'.tracking[id] == ChatStore.Seconds(db.now) + ChatStore.ACCEPT_SECONDS
  }

  /** db' is db plus the chats of the pairs among the first n outcomes. */
  ghost predicate Opened(db: ChatStore.Db, db': ChatStore.Db, outs: seq<Outcome>, newID: nat -> string, n: nat)
    requires n <= |outs|
  {
    && db'.now == db.now
    && (forall id :: id in db.chats ==> id in db'.chats && db'.chats[id] == db.chats[id])
    && (forall id :: id in db.tracking ==> id in db'.tracking && db'.tracking[id] == db.tracking[id])
    && (forall i: nat :: i < n && outs[i].Paired? ==> OpenedAt(db, db', outs[i].pair, newID(i)))
    && (forall i: nat :: n <= i < |outs| ==> newID(i) !in db'.chats && newID(i) !in db'.tracking)
  }

  lemma OpenedStep(db: ChatStore.Db, db': ChatStore.Db, outs: seq<Outcome>, newID: nat -> string, n: nat)
    requires n < |outs| && FreshIDs(db, newID, |outs|) && Opened(db, db', outs, newID, n)
    ensures Opened(db, Open(db', outs[n], newID(n)), outs, newID, n + 1)
  {
    hide ChatStore.NewChat;
  }

  lemma OpenCounts(db: ChatStore.Db, o: Outcome, id: string)
    requires id !in db.chats && id !in db.tracking
    ensures |Open(db, o, id).chats| == |db.chats| + if o.Paired? then 1 else 0
    ensures |Open(db, o, id).tracking| == |db.tracking| + if o.Paired? then 1 else 0
  {
    if o.Paired? {
      assert Open(db, o, id).chats.Keys == db.chats.Keys + {id};
      assert Open(db, o, id).tracking.Keys == db.tracking.Keys + {id};
    }
  }

  lemma {:induction false} ChatsUpTo(db: ChatStore.Db, outs: seq<Outcome>, newID: nat -> string, n: nat)
    requires n <= |outs| && FreshIDs(db, newID, |outs|)
    ensures Opened(db, ChatsAfter(db, outs[..n], newID), outs, newID, n)
    ensures |ChatsAfter(db, outs[..n], newID).chats| == |db.chats| + Pairs(outs[..n])
    ensures |ChatsAfter(db, outs[..n], newID).tracking| == |db.tracking| + Pairs(outs[..n])
  {
    if n > 0 {
      var before := ChatsAfter(db, outs[..n - 1], newID);
      ChatsUpTo(db, outs, newID, n - 1);
      ChatsPrefixStep(db, outs, newID, n - 1);
      assert outs[..n][..n - 1] == outs[..n - 1];
      hide ChatsAfter, FreshIDs, Open;
      OpenedStep(db, before, outs, newID, n - 1);
      OpenCounts(before, outs[n - 1], newID(n - 1));
    }
  }

  /** A pass opens one fresh pending chat per pair, between its two users and tracked under
      its deadline, and touches no other chat and no other tracking entry. */
  lemma PairsBecomeChats(db: ChatStore.Db, outs: seq<Outcome>, newID: nat -> string, i: nat)
    requires FreshIDs(db, newID, |outs|) && i < |outs| && outs[i].Paired?
    ensures var db' := ChatsAfter(db, outs, newID);
      && |db'.chats| == |db.chats| + Pairs(outs) && |db'.tracking| == |db.tracking| + Pairs(outs)
      && (forall id :: id in db.chats ==> id in db'.chats && db'.chats[id] == db.chats[id])
      && (forall id :: id in db.tracking ==> id in db'.tracking && db'.tracking[id] == db.tracking[id])
      && OpenedAt(db, db', outs[i].pair, newID(i))
  {
    ChatsUpTo(db, outs, newID, |outs|);
    assert outs[..|outs|] == outs;
  }

  // ----- who is told -----

  /** How many of the results are for x. */
  function Told(results: seq<MatchResult>, x: string): nat {
    if results == [] then 0
    else Told(results[..|results| - 1], x) + if results[|results| - 1].to == x then 1 else 0
  }

  lemma {:induction false} ToldConcat(a: seq<MatchResult>, b: seq<MatchResult>, x: string)
    ensures Told(a + b, x) == Told(a, x) + Told(b, x)
  {
    if b == [] {
      assert a + b == a;
    } else {
      assert (a + b)[..|a + b| - 1] == a + b[..|b| - 1];
      ToldConcat(a, b[..|b| - 1], x);
    }
  }

  /** What a match result says: the other user of the chat it names, as that chat has them,
      the pair's shared interests, and fifteen seconds. */
  lemma ResultNamesPartner(s: Store, sid: string, o: Outcome, db: ChatStore.Db, chatID: string, r: MatchResult)
    requires Allowed(s, sid, o) && r in Results(o, chatID)
    ensures r.Timeout? ==> o == TimedOut(r.to)
    ensures r.Found? ==>
              && o.Paired? && r.chatID == chatID && r.to != r.partner && r.acceptSeconds == 15
              && {r.to, r.partner} == {o.pair.sessionA, o.pair.sessionB}
              && r.sharedInterests == o.pair.sharedInterests
              && chatID in Open(db, o, chatID).chats
              && Open(db, o, chatID).chats[chatID].value.GetPartner(r.to) == r.partner
  {
    if o.Paired? {
      PairIsQueued(s, sid, o.pair);
    }
  }

  /** A visit tells each session it takes out, once, and nobody else. */
  lemma VisitTells(s: Store, sid: string, o: Outcome, chatID: string, x: string)
    requires Allowed(s, sid, o)
    ensures Told(Results(o, chatID), x) == if x in Gone(o) then 1 else 0
  {
    match o
    case TimedOut(_) => assert Results(o, chatID) == [Timeout(sid)];
    case Paired(m) =>
      PairIsQueued(s, sid, m);
      var r := Results(o, chatID);
      assert r == [r[0]] + [r[1]];
      ToldConcat([r[0]], [r[1]], x);
    case _ =>
  }

  lemma VisitTellsLeavers(s: Store, sid: string, o: Outcome, chatID: string, x: string)
    requires Recorded(s) && Allowed(s, sid, o)
    ensures Told(Results(o, chatID), x) == if x in s.queue && x !in Apply(s, o).queue then 1 else 0
    ensures x in Apply(s, o).queue ==> x in s.queue
  {
    hide Recorded, Allowed, Apply, Results, Told, Gone;
    VisitRemoves(s, sid, o);
    VisitTells(s, sid, o, chatID, x);
  }

  lemma {:induction false} ToldUpTo(s: Store, ids: seq<string>, outs: seq<Outcome>, newID: nat -> string, x: string,
                                    n: nat)
    requires Recorded(s) && IsPass(s, ids, outs) && n <= |outs|
    ensures Told(ResultsAfter(outs[..n], newID), x) ==
            if x in s.queue && x !in After(s, outs[..n]).queue then 1 else 0
    ensures x in After(s, outs[..n]).queue ==> x in s.queue
  {
    hide Recorded, Allowed, Apply, Results, IsPass;
    if n > 0 {
      hide *;
      ToldUpTo(s, ids, outs, newID, x, n - 1);
      DuringPass(s, ids, outs, n - 1);
      PrefixStep(s, outs, n - 1);
      ChatsPrefixStep(ChatStore.Db(0, map[], map[]), outs, newID, n - 1);
      AllowedAt(s, ids, outs, n - 1);
      VisitTellsLeavers(After(s, outs[..n - 1]), ids[n - 1], outs[n - 1], newID(n - 1), x);
      ToldConcat(ResultsAfter(outs[..n - 1], newID), Results(outs[n - 1], newID(n - 1)), x);
    }
  }

  /** A pass sends exactly one result to each session that leaves the queue, and none to
      any other. */
  lemma LeaversAreToldOnce(s: Store, ids: seq<string>, outs: seq<Outcome>, newID: nat -> string, x: string)
    requires Recorded(s) && IsPass(s, ids, outs)
    ensures Told(ResultsAfter(outs, newID), x) == if x in s.queue && x !in After(s, outs).queue then 1 else 0
  {
    ToldUpTo(s, ids, outs, newID, x, |outs|);
    assert outs[..|outs|] == outs;
  }

  // ----- a session without a record -----

  /** A queued session whose record has expired survives every visit of every pass, from
      any store at all: it can be handed out as a partner but never leaves the queue. */
  lemma {:induction false} StrandedSurvives(s: Store, outs: seq<Outcome>, x: string)
    requires x in s.queue && GetEntry(s, x).None?
    ensures x in After(s, outs).queue && GetEntry(After(s, outs), x).None? && After(s, outs).now == s.now
  {
    if outs != [] {
      StrandedSurvives(s, outs[..|outs| - 1], x);
      var s', o := After(s, outs[..|outs| - 1]), outs[|outs| - 1];
      match o
      case TimedOut(sid) => DequeueTakesEffect(s', sid, x);
      case Paired(m) =>
        DequeueTakesEffect(s', m.sessionA, x);
        DequeueTakesEffect(Dequeued(s', m.sessionA), m.sessionB, x);
      case _ =>
    }
  }
}
