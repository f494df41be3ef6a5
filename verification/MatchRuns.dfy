/**
 Runs of the matcher: users joining and leaving, visits of the match loop's passes, the
 stale-entry cleanup of internal/matching/cleanup.go, the chats the matches lead to, and
 time going by, in any order.
 Here a pass is not one step: only each visit is, and anything may happen between two.
 */
module MatchRuns {
  import opened Redis
  import opened InterestEncoding
  import opened MatchQueue
  import opened MatchTiers
  import opened MatchPass
  import ChatStore
  import ChatLifecycle

  // ----- the stale-entry cleanup -----

  /** Dequeue every listed session that no longer exists. */
  function Cleaned(s: Store, ids: seq<string>, alive: set<string>): Store {
    if ids == [] then s
    else
      var rest := Cleaned(s, ids[..|ids| - 1], alive);
      if ids[|ids| - 1] in alive then rest else Dequeued(rest, ids[|ids| - 1])
  }

  method CleanStaleEntries(q: Queue, alive: set<string>) returns (ids: seq<string>)
    modifies q
    ensures IsZRange(old(q.queue), old(q.queue).Keys, ids)
    ensures q.State() == Cleaned(old(q.State()), ids, alive)
  {
    ids := q.GetAllQueued();
    for i := 0 to |ids|
      invariant q.State() == Cleaned(old(q.State()), ids[..i], alive)
    {
      assert ids[..i + 1][..i] == ids[..i];
      if ids[i] !in alive {
        q.Dequeue(ids[i]);
      }
    }
    assert ids[..|ids|] == ids;
  }

  /** While queued sessions have their records, the cleanup takes out the listed sessions
      that no longer exist and nobody else. */
  lemma {:induction false} CleanRemoves(s: Store, ids: seq<string>, alive: set<string>)
    requires Recorded(s)
    ensures Shrunk(s, Cleaned(s, ids, alive), set x | x in ids && x !in alive)
    ensures Recorded(Cleaned(s, ids, alive))
  {
    hide Recorded, Dequeued;
    if ids == [] {
      ShrunkByNone(s);
      assert (set x | x in ids && x !in alive) == {};
    } else {
      var init, last := ids[..|ids| - 1], ids[|ids| - 1];
      var gone := set x | x in init && x !in alive;
      var s' := Cleaned(s, init, alive);
      CleanRemoves(s, init, alive);
      assert ids == init + [last];
      if last in alive {
        assert (set x | x in ids && x !in alive) == gone;
      } else {
        DequeueKeepsRecords(s', last);
        ShrunkTwice(s, s', Dequeued(s', last), gone, {last});
        assert (set x | x in ids && x !in alive) == gone + {last};
      }
    }
  }

  lemma {:induction false} CleanKeepsCover(s: Store, ids: seq<string>, alive: set<string>)
    requires Covered(s)
    ensures Covered(Cleaned(s, ids, alive))
  {
    hide Covered, Dequeued;
    if ids != [] {
      CleanKeepsCover(s, ids[..|ids| - 1], alive);
      DequeueKeepsCover(Cleaned(s, ids[..|ids| - 1], alive), ids[|ids| - 1]);
    }
  }

  lemma {:induction false} CleanKeepsCoherence(s: Store, ids: seq<string>, alive: set<string>)
    requires Coherent(s)
    ensures Coherent(Cleaned(s, ids, alive))
  {
    hide Coherent, Dequeued, Absent;
    if ids != [] {
      CleanKeepsCoherence(s, ids[..|ids| - 1], alive);
      DequeueKeepsCoherence(Cleaned(s, ids[..|ids| - 1], alive), ids[|ids| - 1]);
    }
  }

  // ----- steps and runs -----

  datatype Step =
    | Tick(ms: nat)
    | Request(sid: string, tags: seq<string>)
    | Cancel(sid: string)
    | Refresh(sid: string)
    | PassStart(ids: seq<string>)
    | VisitNext(outcome: Outcome, chatID: string)
    | Clean(ids: seq<string>, alive: set<string>)
    | ChatStep(chatStep: ChatLifecycle.Step)

  /** The queue's store, the sessions the running pass has still to visit, when it took its
      snapshot, when the last pass to be completed took its own; the chats; and the results
      published so far. */
  datatype World = World(
    store: Store, todo: seq<string>, started: int, lastPass: int,
    chats: ChatLifecycle.World, sent: seq<MatchResult>)

  /** What a step does to the chats; Tick(0) is nothing. */
  function ChatSide(w: World, step: Step): ChatLifecycle.Step {
    match step
    case Tick(ms) => ChatLifecycle.Tick(ms)
    case VisitNext(o, id) =>
      if w.todo != [] && o.Paired? then ChatLifecycle.Create(id, o.pair.sessionA, o.pair.sessionB)
      else ChatLifecycle.Tick(0)
    case ChatStep(chatStep) => chatStep
    case _ => ChatLifecycle.Tick(0)
  }

  function Publishes(w: World, step: Step): seq<MatchResult> {
    if step.VisitNext? && w.todo != [] then Results(step.outcome, step.chatID) else []
  }

  /** What a step does to the queue and the pass. */
  function QueueSide(w: World, digest: Digest, step: Step): World {
    match step
    case Tick(ms) => w.(store := Later(w.store, w.store.now + ms))
    case Request(sid, tags) => w.(store := Enqueued(w.store, digest, sid, tags))
    case Cancel(sid) => w.(store := Dequeued(w.store, sid))
    case Refresh(sid) => w.(store := Refreshed(w.store, sid))
    case PassStart(ids) =>
      w.(todo := ids, started := w.store.now, lastPass := if ids == [] then w.store.now else w.lastPass)
    case VisitNext(o, _) =>
      if w.todo == [] then w
      else w.(store := Apply(w.store, o), todo := w.todo[1..],
              lastPass := if |w.todo| == 1 then w.started else w.lastPass)
    case Clean(ids, alive) => w.(store := Cleaned(w.store, ids, alive))
    case ChatStep(_) => w
  }

  function Do(w: World, digest: Digest, step: Step): World {
    QueueSide(w, digest, step).(
      chats := ChatLifecycle.Do(w.chats, ChatSide(w, step)),
      sent := w.sent + Publishes(w, step))
  }

  /** The last completed pass began at most gap ago. Anyone may ask for a match with any
      tags at any time, also while queued. The cleanup may work from any list of sessions.
      Chat IDs are fresh. */
  ghost predicate Enabled(w: World, gap: int, step: Step) {
    match step
    case Tick(ms) => w.store.now + ms <= w.lastPass + gap
    case PassStart(ids) => w.todo == [] && IsZRange(w.store.queue, w.store.queue.Keys, ids)
    case VisitNext(o, id) => w.todo != [] && Allowed(w.store, w.todo[0], o) && id !in w.chats.used
    case ChatStep(c) => !c.Tick? && !c.Create? && ChatLifecycle.Enabled(w.chats, 0, c)
    case _ => true
  }

  ghost predicate Initial(w: World) {
    && ChatLifecycle.Initial(w.chats)
    && w.store == Store(w.chats.db.now, map[], map[], map[], map[])
    && w.todo == [] && w.started == w.lastPass == w.store.now && w.sent == []
  }

  ghost predicate IsRun(ws: seq<World>, steps: seq<Step>, digest: Digest, gap: int) {
    && |ws| == |steps| + 1
    && Initial(ws[0])
    && forall i :: 0 <= i < |steps| ==> Enabled(ws[i], gap, steps[i]) && ws[i + 1] == Do(ws[i], digest, steps[i])
  }

  lemma RunStep(ws: seq<World>, steps: seq<Step>, digest: Digest, gap: int, i: nat)
    requires IsRun(ws, steps, digest, gap) && i < |steps|
    ensures Enabled(ws[i], gap, steps[i]) && ws[i + 1] == Do(ws[i], digest, steps[i])
  {
    hide Enabled, Do;
  }

  // ----- what holds in every run, whatever users ask for -----

  /** Nobody queued had waited thirty seconds when the last completed pass began; nor when
      the running one began, but for those it has still to visit. */
  ghost predicate Young(w: World, gap: int) {
    && w.lastPass <= w.started <= w.store.now <= w.lastPass + gap
    && (forall x :: x in w.store.queue ==> w.lastPass - w.store.queue[x] < MATCH_TIMEOUT)
    && (forall x :: x in w.store.queue ==> x in w.todo || w.started - w.store.queue[x] < MATCH_TIMEOUT)
  }

  ghost predicate Timely(w: World, gap: int) {
    Recorded(w.store) && Young(w, gap)
  }

  lemma VisitStaysTimely(w: World, digest: Digest, gap: int, o: Outcome, id: string)
    requires Timely(w, gap) && w.todo != [] && Allowed(w.store, w.todo[0], o)
    ensures Timely(Do(w, digest, VisitNext(o, id)), gap)
  {
    hide Recorded, Allowed, Apply, ChatLifecycle.Do, Results;
    VisitRemoves(w.store, w.todo[0], o);
    TimedOutVisit(w.store, w.todo[0], o);
    assert w.todo == [w.todo[0]] + w.todo[1..];
  }

  /** Every step keeps the records of all queued sessions alive as long as passes are at
      most thirty seconds apart: no record can expire before a pass has had the chance to
      time its owner out. */
  lemma StepStaysTimely(w: World, digest: Digest, gap: int, step: Step)
    requires 0 <= gap <= MATCH_TIMEOUT
    requires Timely(w, gap) && Enabled(w, gap, step)
    ensures Timely(Do(w, digest, step), gap)
  {
    hide Recorded, Allowed, Apply, Enqueued, Dequeued, Refreshed, Cleaned, ChatLifecycle.Do, Publishes, ChatSide;
    match step
    case Tick(ms) => TimeKeepsRecords(w.store, w.store.now + ms);
    case Request(sid, tags) =>
      EnqueueKeepsRecords(w.store, digest, sid, tags);
      JoinQueue(w.store, digest, sid, tags);
    case Cancel(sid) => DequeueKeepsRecords(w.store, sid);
    case Refresh(sid) => RefreshKeepsRecords(w.store, sid);
    case PassStart(ids) =>
    case VisitNext(o, id) => VisitStaysTimely(w, digest, gap, o, id);
    case Clean(ids, alive) => CleanRemoves(w.store, ids, alive);
    case ChatStep(_) =>
  }

  lemma JoinQueue(s: Store, digest: Digest, sid: string, tags: seq<string>)
    ensures Enqueued(s, digest, sid, tags).queue == s.queue[sid := s.now]
    ensures Enqueued(s, digest, sid, tags).now == s.now
  {
  }

  lemma {:induction false} RunStaysTimely(ws: seq<World>, steps: seq<Step>, digest: Digest, gap: int, n: nat)
    requires IsRun(ws, steps, digest, gap) && 0 <= gap <= MATCH_TIMEOUT && n < |ws|
    ensures Timely(ws[n], gap)
  {
    hide Enabled, Do;
    if n > 0 {
      hide Timely;
      RunStaysTimely(ws, steps, digest, gap, n - 1);
      StepStaysTimely(ws[n - 1], digest, gap, steps[n - 1]);
    }
  }

  /** In every reachable state each queued session has a live record and has been waiting
      for less than thirty seconds plus the gap. */
  lemma RunSafety(ws: seq<World>, steps: seq<Step>, digest: Digest, gap: int, n: nat, x: string)
    requires IsRun(ws, steps, digest, gap) && 0 <= gap <= MATCH_TIMEOUT && n < |ws|
    requires x in ws[n].store.queue
    ensures var s := ws[n].store;
      && GetEntry(s, x).Some? && GetEntry(s, x).value.joinedAt == s.queue[x]
      && s.now - s.queue[x] < 30_000 + gap
  {
    hide IsRun;
    RunStaysTimely(ws, steps, digest, gap, n);
    assert HasRecord(ws[n].store, x);
  }

  // ----- when the indexes can be trusted -----

  /** The step is no request whose list is read back as tags it was not entered under. */
  ghost predicate Legible(w: World, step: Step) {
    step.Request? ==> PiecesIndexed(w.store, step.sid, step.tags)
  }

  /** The step is no request whose list is read back differently, or by which a queued
      session changes its hash or drops a tag. */
  ghost predicate Tidy(w: World, digest: Digest, step: Step) {
    step.Request? ==> RoundTrips(step.tags) && LeavesNothingBehind(w.store, digest, step.sid, step.tags)
  }

  lemma YoungWaitsOut(w: World, gap: int, ms: nat)
    requires 0 <= gap <= MATCH_TIMEOUT && Young(w, gap) && Enabled(w, gap, Tick(ms))
    ensures NobodyWaitsOut(w.store, w.store.now + ms)
  {
  }

  lemma StepKeepsCover(w: World, digest: Digest, gap: int, step: Step)
    requires 0 <= gap <= MATCH_TIMEOUT
    requires Young(w, gap) && Covered(w.store) && Enabled(w, gap, step)
    ensures Covered(Do(w, digest, step).store) <==> Legible(w, step)
  {
    hide Covered, Young, Apply, Enqueued, Dequeued, Refreshed, Cleaned, ChatLifecycle.Do, Publishes, ChatSide,
         NobodyWaitsOut, PiecesIndexed;
    match step
    case Tick(ms) =>
      YoungWaitsOut(w, gap, ms);
      TimeKeepsCover(w.store, w.store.now + ms);
    case Request(sid, tags) => EnqueueKeepsCover(w.store, digest, sid, tags);
    case Cancel(sid) => DequeueKeepsCover(w.store, sid);
    case Refresh(sid) => RefreshKeepsCover(w.store, sid);
    case PassStart(ids) =>
    case VisitNext(o, _) => ApplyKeepsCover(w.store, o);
    case Clean(ids, alive) => CleanKeepsCover(w.store, ids, alive);
    case ChatStep(_) =>
  }

  lemma StepKeepsCoherence(w: World, digest: Digest, gap: int, step: Step)
    requires 0 <= gap <= MATCH_TIMEOUT
    requires Young(w, gap) && Coherent(w.store) && Enabled(w, gap, step)
    ensures Coherent(Do(w, digest, step).store) <==> Tidy(w, digest, step)
  {
    hide Coherent, Young, Apply, Enqueued, Dequeued, Refreshed, Cleaned, ChatLifecycle.Do, Publishes, ChatSide,
         NobodyWaitsOut, RoundTrips, LeavesNothingBehind, Absent, SameView;
    match step
    case Tick(ms) =>
      YoungWaitsOut(w, gap, ms);
      TimeKeepsCoherence(w.store, w.store.now + ms);
    case Request(sid, tags) => EnqueueKeepsCoherence(w.store, digest, sid, tags);
    case Cancel(sid) => DequeueKeepsCoherence(w.store, sid);
    case Refresh(sid) => RefreshKeepsCoherence(w.store, sid);
    case PassStart(ids) =>
    case VisitNext(o, _) => ApplyKeepsCoherence(w.store, o);
    case Clean(ids, alive) => CleanKeepsCoherence(w.store, ids, alive);
    case ChatStep(_) =>
  }

  /** Throughout a run every queued session is found under its hash and tags exactly when
      every request was legible. */
  lemma {:induction false} CoverIsExact(ws: seq<World>, steps: seq<Step>, digest: Digest, gap: int, n: nat)
    requires IsRun(ws, steps, digest, gap) && 0 <= gap <= MATCH_TIMEOUT && n < |ws|
    ensures (forall k :: 0 <= k <= n ==> Covered(ws[k].store)) <==> forall i :: 0 <= i < n ==> Legible(ws[i], steps[i])
  {
    hide Enabled, Do, Legible, Young;
    if n > 0 {
      hide Covered;
      CoverIsExact(ws, steps, digest, gap, n - 1);
      RunStaysTimely(ws, steps, digest, gap, n - 1);
      if Covered(ws[n - 1].store) {
        StepKeepsCover(ws[n - 1], digest, gap, steps[n - 1]);
      }
      assert (forall k :: 0 <= k <= n ==> Covered(ws[k].store)) <==>
             (forall k :: 0 <= k <= n - 1 ==> Covered(ws[k].store)) && Covered(ws[n].store);
      assert (forall i :: 0 <= i < n ==> Legible(ws[i], steps[i])) <==>
             (forall i :: 0 <= i < n - 1 ==> Legible(ws[i], steps[i])) && Legible(ws[n - 1], steps[n - 1]);
    }
  }

  /** Throughout a run the indexes equal scans of the queue exactly when every request was
      tidy. */
  lemma {:induction false} AgreementIsExact(ws: seq<World>, steps: seq<Step>, digest: Digest, gap: int, n: nat)
    requires IsRun(ws, steps, digest, gap) && 0 <= gap <= MATCH_TIMEOUT && n < |ws|
    ensures (forall k :: 0 <= k <= n ==> Coherent(ws[k].store)) <==>
            forall i :: 0 <= i < n ==> Tidy(ws[i], digest, steps[i])
  {
    hide Enabled, Do, Tidy, Young;
    if n > 0 {
      hide Coherent;
      AgreementIsExact(ws, steps, digest, gap, n - 1);
      RunStaysTimely(ws, steps, digest, gap, n - 1);
      if Coherent(ws[n - 1].store) {
        StepKeepsCoherence(ws[n - 1], digest, gap, steps[n - 1]);
      }
      assert (forall k :: 0 <= k <= n ==> Coherent(ws[k].store)) <==>
             (forall k :: 0 <= k <= n - 1 ==> Coherent(ws[k].store)) && Coherent(ws[n].store);
      assert (forall i :: 0 <= i < n ==> Tidy(ws[i], digest, steps[i])) <==>
             (forall i :: 0 <= i < n - 1 ==> Tidy(ws[i], digest, steps[i])) && Tidy(ws[n - 1], digest, steps[n - 1]);
    }
  }

  ghost predicate CommaFree(steps: seq<Step>) {
    forall i, t :: 0 <= i < |steps| && steps[i].Request? && t in steps[i].tags ==> ',' !in t
  }

  lemma RunIsCovered(ws: seq<World>, steps: seq<Step>, digest: Digest, gap: int, n: nat)
    requires IsRun(ws, steps, digest, gap) && 0 <= gap <= MATCH_TIMEOUT && n < |ws|
    requires CommaFree(steps)
    ensures Covered(ws[n].store)
  {
    hide Enabled, Do, PiecesIndexed, Covered;
    forall i | 0 <= i < n ensures Legible(ws[i], steps[i]) {
      if steps[i].Request? {
        CommaFreeListed(ws[i].store, steps[i].sid, steps[i].tags);
      }
    }
    CoverIsExact(ws, steps, digest, gap, n);
  }

  /** As long as nobody asks for a tag with a comma, every queued session of every reachable
      state is in the live sets of its hash and of each of its tags, however often it has
      asked again. */
  lemma RunFindsEveryone(ws: seq<World>, steps: seq<Step>, digest: Digest, gap: int, n: nat, x: string)
    requires IsRun(ws, steps, digest, gap) && 0 <= gap <= MATCH_TIMEOUT && n < |ws|
    requires CommaFree(steps) && x in ws[n].store.queue
    ensures var s := ws[n].store;
      && x in s.records
      && x in Members(s.exact, HashOf(s, x), s.now)
      && (forall t :: t in TagsOf(s, x) ==> x in Members(s.interest, t, s.now))
  {
    hide IsRun, Covered, Decode, CommaFree;
    RunIsCovered(ws, steps, digest, gap, n);
    QueuedIsFound(ws[n].store, x);
  }

  /** In a run of tidy requests the index sets of every reachable state are scans. */
  lemma RunIndexesEqualScan(ws: seq<World>, steps: seq<Step>, digest: Digest, gap: int, n: nat, x: string, key: string)
    requires IsRun(ws, steps, digest, gap) && 0 <= gap <= MATCH_TIMEOUT && n < |ws|
    requires forall i :: 0 <= i < n ==> Tidy(ws[i], digest, steps[i])
    ensures var s := ws[n].store;
      && (x in Members(s.exact, key, s.now) <==> WaitsUnderHash(s, x, key))
      && (x in Members(s.interest, key, s.now) <==> WaitsUnderTag(s, x, key))
  {
    hide IsRun, Coherent, Tidy, Decode;
    AgreementIsExact(ws, steps, digest, gap, n);
    IndexesEqualScan(ws[n].store, key);
  }

  // ----- what an exact match means in a run -----

  /** The step is no request by which a queued session changes its hash. */
  ghost predicate SteadyHash(w: World, digest: Digest, step: Step) {
    step.Request? ==> RepeatsHash(w.store, digest, step.sid, step.tags)
  }

  lemma {:induction false} CleanKeepsHashes(s: Store, ids: seq<string>, alive: set<string>)
    requires HashCovered(s)
    ensures HashCovered(Cleaned(s, ids, alive))
    ensures HashAgrees(s) ==> HashAgrees(Cleaned(s, ids, alive))
  {
    hide HashCovered, ExactSound, Dequeued;
    if ids != [] {
      CleanKeepsHashes(s, ids[..|ids| - 1], alive);
      DequeueKeepsHashCover(Cleaned(s, ids[..|ids| - 1], alive), ids[|ids| - 1]);
      if HashAgrees(s) {
        DequeueKeepsHashes(Cleaned(s, ids[..|ids| - 1], alive), ids[|ids| - 1]);
      }
    }
  }

  lemma ApplyKeepsHashes(s: Store, o: Outcome)
    requires HashCovered(s)
    ensures HashCovered(Apply(s, o))
    ensures HashAgrees(s) ==> HashAgrees(Apply(s, o))
  {
    hide HashCovered, ExactSound, Dequeued;
    match o
    case TimedOut(sid) =>
      DequeueKeepsHashCover(s, sid);
      if HashAgrees(s) {
        DequeueKeepsHashes(s, sid);
      }
    case Paired(m) =>
      DequeueKeepsHashCover(s, m.sessionA);
      DequeueKeepsHashCover(Dequeued(s, m.sessionA), m.sessionB);
      if HashAgrees(s) {
        DequeueKeepsHashes(s, m.sessionA);
        DequeueKeepsHashes(Dequeued(s, m.sessionA), m.sessionB);
      }
    case _ =>
  }

  /** Whatever users ask for, every step keeps each queued session in the set of its hash. */
  lemma StepKeepsHashCover(w: World, digest: Digest, gap: int, step: Step)
    requires 0 <= gap <= MATCH_TIMEOUT
    requires Young(w, gap) && HashCovered(w.store) && Enabled(w, gap, step)
    ensures HashCovered(Do(w, digest, step).store)
  {
    hide HashCovered, Young, Apply, Enqueued, Dequeued, Refreshed, Cleaned, ChatLifecycle.Do, Publishes, ChatSide,
         NobodyWaitsOut;
    match step
    case Tick(ms) =>
      YoungWaitsOut(w, gap, ms);
      TimeKeepsHashCover(w.store, w.store.now + ms);
    case Request(sid, tags) => EnqueueKeepsHashCover(w.store, digest, sid, tags);
    case Cancel(sid) => DequeueKeepsHashCover(w.store, sid);
    case Refresh(sid) => RefreshKeepsHashCover(w.store, sid);
    case PassStart(ids) =>
    case VisitNext(o, _) => ApplyKeepsHashes(w.store, o);
    case Clean(ids, alive) => CleanKeepsHashes(w.store, ids, alive);
    case ChatStep(_) =>
  }

  lemma StepKeepsHashes(w: World, digest: Digest, gap: int, step: Step)
    requires 0 <= gap <= MATCH_TIMEOUT
    requires Young(w, gap) && HashAgrees(w.store) && Enabled(w, gap, step)
    ensures HashAgrees(Do(w, digest, step).store) <==> SteadyHash(w, digest, step)
  {
    hide HashCovered, ExactSound, Young, Apply, Enqueued, Dequeued, Refreshed, Cleaned, ChatLifecycle.Do, Publishes,
         ChatSide, NobodyWaitsOut, RepeatsHash;
    match step
    case Tick(ms) =>
      YoungWaitsOut(w, gap, ms);
      TimeKeepsHashes(w.store, w.store.now + ms);
    case Request(sid, tags) => EnqueueKeepsHashes(w.store, digest, sid, tags);
    case Cancel(sid) => DequeueKeepsHashes(w.store, sid);
    case Refresh(sid) => RefreshKeepsHashes(w.store, sid);
    case PassStart(ids) =>
    case VisitNext(o, _) => ApplyKeepsHashes(w.store, o);
    case Clean(ids, alive) => CleanKeepsHashes(w.store, ids, alive);
    case ChatStep(_) =>
  }

  lemma {:induction false} RunStaysHashCovered(ws: seq<World>, steps: seq<Step>, digest: Digest, gap: int, n: nat)
    requires IsRun(ws, steps, digest, gap) && 0 <= gap <= MATCH_TIMEOUT && n < |ws|
    ensures HashCovered(ws[n].store)
  {
    hide Enabled, Do, Young;
    if n > 0 {
      hide HashCovered;
      RunStaysHashCovered(ws, steps, digest, gap, n - 1);
      RunStaysTimely(ws, steps, digest, gap, n - 1);
      StepKeepsHashCover(ws[n - 1], digest, gap, steps[n - 1]);
    }
  }

  /** Throughout a run the hash sets are scans of the queue exactly when no queued session
      changes its hash, whatever happens to the tags. */
  lemma {:induction false} HashAgreementIsExact(ws: seq<World>, steps: seq<Step>, digest: Digest, gap: int, n: nat)
    requires IsRun(ws, steps, digest, gap) && 0 <= gap <= MATCH_TIMEOUT && n < |ws|
    ensures (forall k :: 0 <= k <= n ==> HashAgrees(ws[k].store)) <==>
            forall i :: 0 <= i < n ==> SteadyHash(ws[i], digest, steps[i])
  {
    hide Enabled, Do, SteadyHash, Young;
    if n > 0 {
      hide HashAgrees;
      HashAgreementIsExact(ws, steps, digest, gap, n - 1);
      RunStaysTimely(ws, steps, digest, gap, n - 1);
      if HashAgrees(ws[n - 1].store) {
        StepKeepsHashes(ws[n - 1], digest, gap, steps[n - 1]);
      }
      assert (forall k :: 0 <= k <= n ==> HashAgrees(ws[k].store)) <==>
             (forall k :: 0 <= k <= n - 1 ==> HashAgrees(ws[k].store)) && HashAgrees(ws[n].store);
      assert (forall i :: 0 <= i < n ==> SteadyHash(ws[i], digest, steps[i])) <==>
             (forall i :: 0 <= i < n - 1 ==> SteadyHash(ws[i], digest, steps[i])) &&
             SteadyHash(ws[n - 1], digest, steps[n - 1]);
    }
  }

  /** The list of each session's latest request. */
  function LastAsked(steps: seq<Step>, n: nat): map<string, seq<string>>
    requires n <= |steps|
  {
    if n == 0 then map[]
    else if steps[n - 1].Request? then LastAsked(steps, n - 1)[steps[n - 1].sid := steps[n - 1].tags]
    else LastAsked(steps, n - 1)
  }

  lemma ShrunkStaysAsked(s: Store, s': Store, gone: set<string>, digest: Digest, asked: map<string, seq<string>>)
    requires Shrunk(s, s', gone) && Asked(s, digest, asked)
    ensures Asked(s', digest, asked)
  {
    hide InterestsHash, Join;
    forall x | x in s'.queue && x in s'.records ensures AskedWith(s', digest, asked, x) {
      assert AskedWith(s, digest, asked, x);
    }
  }

  lemma JoinStaysAsked(s: Store, digest: Digest, asked: map<string, seq<string>>, sid: string, tags: seq<string>)
    requires Asked(s, digest, asked)
    ensures Asked(Enqueued(s, digest, sid, tags), digest, asked[sid := tags])
  {
    hide InterestsHash, Join, SAdd, SAddAll;
    var s' := Enqueued(s, digest, sid, tags);
    forall x | x in s'.queue && x in s'.records ensures AskedWith(s', digest, asked[sid := tags], x) {
      if x != sid {
        assert AskedWith(s, digest, asked, x);
      }
    }
  }

  lemma OtherwiseStaysAsked(s: Store, digest: Digest, asked: map<string, seq<string>>, sid: string, now: int)
    requires Asked(s, digest, asked)
    ensures Asked(Refreshed(s, sid), digest, asked) && Asked(Later(s, now), digest, asked)
  {
    hide InterestsHash, Join, Touch, TouchAll, Decode;
    var r, l := Refreshed(s, sid), Later(s, now);
    forall x | x in s.queue && x in s.records
      ensures x in r.records && AskedWith(r, digest, asked, x) && AskedWith(l, digest, asked, x)
    {
      assert AskedWith(s, digest, asked, x);
    }
    assert forall x :: x in r.records ==> x in s.records;
  }

  lemma StepStaysAsked(w: World, digest: Digest, gap: int, step: Step, asked: map<string, seq<string>>)
    requires Recorded(w.store) && Asked(w.store, digest, asked) && Enabled(w, gap, step)
    ensures Asked(Do(w, digest, step).store, digest, if step.Request? then asked[step.sid := step.tags] else asked)
  {
    hide Recorded, Asked, Allowed, Apply, Enqueued, Dequeued, Refreshed, Cleaned,
         ChatLifecycle.Do, Publishes, ChatSide;
    match step
    case Tick(ms) => OtherwiseStaysAsked(w.store, digest, asked, "", w.store.now + ms);
    case Request(sid, tags) => JoinStaysAsked(w.store, digest, asked, sid, tags);
    case Cancel(sid) =>
      DequeueKeepsRecords(w.store, sid);
      ShrunkStaysAsked(w.store, Dequeued(w.store, sid), {sid}, digest, asked);
    case Refresh(sid) => OtherwiseStaysAsked(w.store, digest, asked, sid, 0);
    case PassStart(ids) =>
    case VisitNext(o, _) =>
      VisitRemoves(w.store, w.todo[0], o);
      ShrunkStaysAsked(w.store, Apply(w.store, o), Gone(o), digest, asked);
    case Clean(ids, alive) =>
      CleanRemoves(w.store, ids, alive);
      ShrunkStaysAsked(w.store, Cleaned(w.store, ids, alive), (set x | x in ids && x !in alive), digest, asked);
    case ChatStep(_) =>
  }

  /** In every run each queued session waits with the list it asked for last. */
  lemma {:induction false} RunStaysAsked(ws: seq<World>, steps: seq<Step>, digest: Digest, gap: int, n: nat)
    requires IsRun(ws, steps, digest, gap) && 0 <= gap <= MATCH_TIMEOUT && n < |ws|
    ensures Asked(ws[n].store, digest, LastAsked(steps, n))
  {
    hide Enabled, Do, Young;
    if n > 0 {
      hide Asked, Recorded;
      RunStaysAsked(ws, steps, digest, gap, n - 1);
      RunStaysTimely(ws, steps, digest, gap, n - 1);
      StepStaysAsked(ws[n - 1], digest, gap, steps[n - 1], LastAsked(steps, n - 1));
    }
  }

  /** In a run in which no queued session changes its hash, and without collisions, the exact
      tier offers a queued session exactly the others whose latest list has the same sorted
      pieces; among lists that round-trip, the same interests. The interests reported are
      the session's own. */
  lemma RunExactMatches(ws: seq<World>, steps: seq<Step>, digest: Digest, gap: int, n: nat, sid: string, x: string)
    requires IsRun(ws, steps, digest, gap) && 0 <= gap <= MATCH_TIMEOUT && n < |ws|
    requires forall i :: 0 <= i < n ==> SteadyHash(ws[i], digest, steps[i])
    requires CollisionFree(digest, LastAsked(steps, n).Values)
    requires sid in ws[n].store.queue
    ensures var s, asked := ws[n].store, LastAsked(steps, n);
      && sid in asked
      && (ExactCandidate(s, sid, x) <==>
            x != sid && x in s.queue && x in asked && Pieces(Sort(asked[x])) == Pieces(Sort(asked[sid])))
      && (x in asked && RoundTrips(asked[sid]) && RoundTrips(asked[x]) ==>
            (ExactCandidate(s, sid, x) <==> x != sid && x in s.queue && multiset(asked[x]) == multiset(asked[sid])))
      && GetEntry(s, sid).Some? && GetEntry(s, sid).value.interests == Decode(InterestEncoding.Join(asked[sid]))
  {
    hide Enabled, Do, HashAgrees, Asked, Decode, RoundTrips, SteadyHash, CollisionFree, ExactCandidate, GetEntry,
         Pieces;
    HashAgreementIsExact(ws, steps, digest, gap, n);
    RunStaysAsked(ws, steps, digest, gap, n);
    ExactMatchIsExact(ws[n].store, digest, LastAsked(steps, n), sid, x);
  }

  /** Whoever asks next, for whatever list, is offered by the exact tier only sessions that
      wait under the hash of that list. */
  ghost predicate OffersAreTrue(s: Store, digest: Digest) {
    forall y, c, x :: OfferIsTrue(s, digest, y, c, x)
  }

  ghost predicate OfferIsTrue(s: Store, digest: Digest, y: string, c: seq<string>, x: string) {
    var s' := Enqueued(s, digest, y, c);
    ExactCandidate(s', y, x) ==> x in s'.records && HashOf(s', x) == InterestsHash(digest, c)
  }

  lemma AgreementMakesTrueOffers(s: Store, digest: Digest)
    requires HashAgrees(s)
    ensures OffersAreTrue(s, digest)
  {
    forall y, c, x ensures OfferIsTrue(s, digest, y, c, x) {
      EnqueuedIndexes(s, digest, y, c);
      hide InterestsHash, Members, SAdd, SAddAll, InterestEncoding.Join, Decode;
    }
  }

  lemma QueuedUnderLastList(s: Store, digest: Digest, asked: map<string, seq<string>>, x: string)
    requires HashCovered(s) && Asked(s, digest, asked) && x in s.queue
    ensures x in s.records && x in asked && HashOf(s, x) == InterestsHash(digest, asked[x])
    ensures x in Members(s.exact, HashOf(s, x), s.now)
  {
    assert HasRecord(s, x) && HashIndexed(s, x) && AskedWith(s, digest, asked, x);
  }

  lemma ChangeMakesFalseOffer(s: Store, digest: Digest, asked: map<string, seq<string>>, x: string, tags: seq<string>)
    requires HashCovered(s) && Asked(s, digest, asked) && !RepeatsHash(s, digest, x, tags)
    ensures !OffersAreTrue(Enqueued(s, digest, x, tags), digest)
  {
    hide HashCovered, Asked, Members, InterestsHash, Enqueued, ExactCandidate;
    QueuedUnderLastList(s, digest, asked, x);
    var y := x + "'";
    assert |y| == |x| + 1;
    FormerHashIsOffered(s, digest, x, tags, y, asked[x]);
    assert !OfferIsTrue(Enqueued(s, digest, x, tags), digest, y, asked[x], x);
  }

  lemma OffersUpTo(ws: seq<World>, steps: seq<Step>, digest: Digest, gap: int, n: nat, i: nat)
    requires IsRun(ws, steps, digest, gap) && 0 <= gap <= MATCH_TIMEOUT && i < n < |ws|
    requires OffersAreTrue(ws[i + 1].store, digest)
    ensures SteadyHash(ws[i], digest, steps[i])
  {
    hide Enabled, HashCovered, Asked, OffersAreTrue, RepeatsHash, Enqueued, ChatLifecycle.Do, Publishes, ChatSide;
    if steps[i].Request? && !RepeatsHash(ws[i].store, digest, steps[i].sid, steps[i].tags) {
      RunStaysHashCovered(ws, steps, digest, gap, i);
      RunStaysAsked(ws, steps, digest, gap, i);
      RunStep(ws, steps, digest, gap, i);
      ChangeMakesFalseOffer(ws[i].store, digest, LastAsked(steps, i), steps[i].sid, steps[i].tags);
    }
  }

  /** Throughout a run the exact tier would offer any newcomer only sessions of its own hash
      exactly when no queued session changes its hash. */
  lemma TrueOffersIsExact(ws: seq<World>, steps: seq<Step>, digest: Digest, gap: int, n: nat)
    requires IsRun(ws, steps, digest, gap) && 0 <= gap <= MATCH_TIMEOUT && n < |ws|
    ensures (forall k :: 0 <= k <= n ==> OffersAreTrue(ws[k].store, digest)) <==>
            forall i :: 0 <= i < n ==> SteadyHash(ws[i], digest, steps[i])
  {
    hide Enabled, Do, HashAgrees, OffersAreTrue, SteadyHash;
    HashAgreementIsExact(ws, steps, digest, gap, n);
    if forall i :: 0 <= i < n ==> SteadyHash(ws[i], digest, steps[i]) {
      forall k | 0 <= k <= n ensures OffersAreTrue(ws[k].store, digest) {
        AgreementMakesTrueOffers(ws[k].store, digest);
      }
    }
    if forall k :: 0 <= k <= n ==> OffersAreTrue(ws[k].store, digest) {
      forall i | 0 <= i < n ensures SteadyHash(ws[i], digest, steps[i]) {
        OffersUpTo(ws, steps, digest, gap, n, i);
      }
    }
  }

  // ----- passes that are not interrupted -----

  /** The steps from n on are a pass and nothing else. */
  ghost predicate Uninterrupted(steps: seq<Step>, n: nat) {
    && n < |steps| && steps[n].PassStart?
    && n + |steps[n].ids| < |steps|
    && forall i :: n < i <= n + |steps[n].ids| ==> steps[i].VisitNext?
  }

  function OutcomesFrom(steps: seq<Step>, n: nat, count: nat): seq<Outcome>
    requires n + count <= |steps| && forall i :: n <= i < n + count ==> steps[i].VisitNext?
  {
    seq(count, i requires 0 <= i < count => steps[n + i].outcome)
  }

  function IDsFrom(steps: seq<Step>, n: nat): nat -> string {
    (i: nat) => if n + i < |steps| && steps[n + i].VisitNext? then steps[n + i].chatID else ""
  }

  lemma VisitStep(w: World, digest: Digest, gap: int, o: Outcome, id: string)
    requires Enabled(w, gap, VisitNext(o, id))
    ensures w.todo != [] && Allowed(w.store, w.todo[0], o)
    ensures var w' := Do(w, digest, VisitNext(o, id));
      && w'.store == Apply(w.store, o) && w'.todo == w.todo[1..]
      && w'.chats.db == Open(w.chats.db, o, id)
      && w'.sent == w.sent + Results(o, id)
  {
    hide Allowed, Apply, Results;
  }

  lemma VisitShrinksTodo(w: World, digest: Digest, gap: int, s: Store, ids: seq<string>, outs: seq<Outcome>,
                         id: string, k: nat)
    requires k < |ids| == |outs| && Enabled(w, gap, VisitNext(outs[k], id))
    requires w.store == After(s, outs[..k]) && w.todo == ids[k..]
    ensures var w' := Do(w, digest, VisitNext(outs[k], id));
      && w'.store == After(s, outs[..k + 1])
      && w'.todo == ids[k + 1..]
      && Allowed(After(s, outs[..k]), ids[k], outs[k])
  {
    hide *;
    VisitStep(w, digest, gap, outs[k], id);
    PrefixStep(s, outs, k);
    assert ids[k..][1..] == ids[k + 1..];
  }

  lemma {:induction false} VisitsAddUp(ws: seq<World>, steps: seq<Step>, digest: Digest, gap: int, n: nat, k: nat)
    requires IsRun(ws, steps, digest, gap) && Uninterrupted(steps, n) && k <= |steps[n].ids|
    ensures var s, ids, outs := ws[n].store, steps[n].ids, OutcomesFrom(steps, n + 1, |steps[n].ids|);
      && ws[n + 1 + k].store == After(s, outs[..k])
      && ws[n + 1 + k].todo == ids[k..]
      && forall i :: 0 <= i < k ==> Allowed(After(s, outs[..i]), ids[i], outs[i])
  {
    hide Allowed, Apply, Enabled, Do;
    var s, ids, outs := ws[n].store, steps[n].ids, OutcomesFrom(steps, n + 1, |steps[n].ids|);
    if k == 0 {
      RunStep(ws, steps, digest, gap, n);
      PassStartStep(ws[n], digest, ids);
    } else {
      hide After;
      VisitsAddUp(ws, steps, digest, gap, n, k - 1);
      RunStep(ws, steps, digest, gap, n + k);
      assert steps[n + k] == VisitNext(outs[k - 1], steps[n + k].chatID);
      VisitShrinksTodo(ws[n + k], digest, gap, s, ids, outs, steps[n + k].chatID, k - 1);
    }
  }

  lemma PassStartStep(w: World, digest: Digest, ids: seq<string>)
    ensures var w' := Do(w, digest, PassStart(ids));
      w'.store == w.store && w'.todo == ids && w'.chats.db == w.chats.db && w'.sent == w.sent
  {
  }

  lemma NoVisitsYet(db: ChatStore.Db, outs: seq<Outcome>, newID: nat -> string)
    ensures ChatsAfter(db, outs[..0], newID) == db && ResultsAfter(outs[..0], newID) == []
  {
  }

  lemma VisitAddsUp(w: World, digest: Digest, gap: int, db: ChatStore.Db, sent: seq<MatchResult>,
                    outs: seq<Outcome>, newID: nat -> string, k: nat)
    requires k < |outs| && Enabled(w, gap, VisitNext(outs[k], newID(k)))
    requires w.chats.db == ChatsAfter(db, outs[..k], newID) && w.sent == sent + ResultsAfter(outs[..k], newID)
    ensures var w' := Do(w, digest, VisitNext(outs[k], newID(k)));
      w'.chats.db == ChatsAfter(db, outs[..k + 1], newID) && w'.sent == sent + ResultsAfter(outs[..k + 1], newID)
  {
    hide *;
    VisitStep(w, digest, gap, outs[k], newID(k));
    ChatsPrefixStep(db, outs, newID, k);
  }

  lemma {:induction false} ChatsAddUp(ws: seq<World>, steps: seq<Step>, digest: Digest, gap: int, n: nat, k: nat)
    requires IsRun(ws, steps, digest, gap) && Uninterrupted(steps, n) && k <= |steps[n].ids|
    ensures var outs, newID := OutcomesFrom(steps, n + 1, |steps[n].ids|), IDsFrom(steps, n + 1);
      && ws[n + 1 + k].chats.db == ChatsAfter(ws[n].chats.db, outs[..k], newID)
      && ws[n + 1 + k].sent == ws[n].sent + ResultsAfter(outs[..k], newID)
  {
    hide Enabled, Do, Open, Results, ResultsAfter, ChatsAfter;
    var outs, newID := OutcomesFrom(steps, n + 1, |steps[n].ids|), IDsFrom(steps, n + 1);
    if k == 0 {
      RunStep(ws, steps, digest, gap, n);
      PassStartStep(ws[n], digest, steps[n].ids);
      NoVisitsYet(ws[n].chats.db, outs, newID);
    } else {
      ChatsAddUp(ws, steps, digest, gap, n, k - 1);
      RunStep(ws, steps, digest, gap, n + k);
      assert steps[n + k] == VisitNext(outs[k - 1], newID(k - 1));
      VisitAddsUp(ws[n + k], digest, gap, ws[n].chats.db, ws[n].sent, outs, newID, k - 1);
    }
  }

  /** The visits of an uninterrupted pass are the pass of ProcessQueue, with its chats and
      its results. */
  lemma UninterruptedPass(ws: seq<World>, steps: seq<Step>, digest: Digest, gap: int, n: nat)
    requires IsRun(ws, steps, digest, gap) && Uninterrupted(steps, n)
    ensures var w, w', ids := ws[n], ws[n + 1 + |steps[n].ids|], steps[n].ids;
      var outs, newID := OutcomesFrom(steps, n + 1, |ids|), IDsFrom(steps, n + 1);
      && IsPass(w.store, ids, outs)
      && w'.store == After(w.store, outs)
      && w'.chats.db == ChatsAfter(w.chats.db, outs, newID)
      && w'.sent == w.sent + ResultsAfter(outs, newID)
  {
    hide Allowed, Apply, Do;
    var ids := steps[n].ids;
    VisitsAddUp(ws, steps, digest, gap, n, |ids|);
    ChatsAddUp(ws, steps, digest, gap, n, |ids|);
    RunStep(ws, steps, digest, gap, n);
    var outs := OutcomesFrom(steps, n + 1, |ids|);
    assert outs[..|outs|] == outs;
  }

  /** After every uninterrupted pass of every run without comma tags, no two sessions that
      should have met are both waiting. */
  lemma RunNoBlockingPair(ws: seq<World>, steps: seq<Step>, digest: Digest, gap: int, n: nat, x: string, y: string)
    requires IsRun(ws, steps, digest, gap) && 0 <= gap <= MATCH_TIMEOUT && CommaFree(steps)
    requires Uninterrupted(steps, n)
    requires var s' := ws[n + 1 + |steps[n].ids|].store; x in s'.queue && y in s'.queue && x != y
    ensures var s := ws[n].store;
      && x in s.queue && y in s.queue && x in s.records && y in s.records
      && HashOf(s, x) != HashOf(s, y)
      && (s.now - s.queue[x] >= 10_000 ==> forall t :: t in TagsOf(s, x) ==> t !in TagsOf(s, y))
      && s.now - s.queue[x] < 25_000
  {
    hide Covered, IsPass, After, Decode, OutcomesFrom, Enabled, Do, CommaFree;
    RunIsCovered(ws, steps, digest, gap, n);
    UninterruptedPass(ws, steps, digest, gap, n);
    NoBlockingPair(ws[n].store, steps[n].ids, OutcomesFrom(steps, n + 1, |steps[n].ids|), x, y);
  }

  // ----- nobody is paired too early -----

  /** Every visit of every run of tidy requests has the outcome the wait and the others' lists
      call for: before thirty seconds a pair exactly when somebody queued should be met. */
  lemma RunPairsExactlyTheDue(ws: seq<World>, steps: seq<Step>, digest: Digest, gap: int, i: nat, x: string)
    requires IsRun(ws, steps, digest, gap) && 0 <= gap <= MATCH_TIMEOUT
    requires i < |steps| && steps[i].VisitNext? && forall k :: 0 <= k < i ==> Tidy(ws[k], digest, steps[k])
    requires ws[i].todo != [] && ws[i].todo[0] == x && x in ws[i].store.queue
    ensures var s, o := ws[i].store, steps[i].outcome; var wait := s.now - s.queue[x];
      && x in s.records
      && (o == TimedOut(x) <==> wait >= 30_000)
      && (o.Paired? <==> wait < 30_000 && HasCompany(s, x, wait))
      && (o.Paired? ==> o.pair.sessionA == x && o.pair.sessionB in s.records && Blocking(s, x, o.pair.sessionB, wait))
  {
    hide Enabled, Do, Tidy, Coherent, Allowed, Apply, Decode, HasCompany, Blocking;
    AgreementIsExact(ws, steps, digest, gap, i);
    RunStep(ws, steps, digest, gap, i);
    VisitStep(ws[i], digest, gap, steps[i].outcome, steps[i].chatID);
    VisitPairsExactlyWhenDue(ws[i].store, x, steps[i].outcome);
    if steps[i].outcome.Paired? {
      PairIsQueued(ws[i].store, x, steps[i].outcome.pair);
    }
  }

  // ----- passes that are interrupted -----

  /** Every single visit of every run without comma tags: if the session visited and another
      one are both queued afterwards, they did not have to meet. */
  lemma VisitLeavesNoBlockingPair(ws: seq<World>, steps: seq<Step>, digest: Digest, gap: int, i: nat, x: string,
                                  y: string)
    requires IsRun(ws, steps, digest, gap) && 0 <= gap <= MATCH_TIMEOUT && CommaFree(steps)
    requires i < |steps| && steps[i].VisitNext? && ws[i].todo != [] && ws[i].todo[0] == x
    requires x in ws[i + 1].store.queue && y in ws[i + 1].store.queue && x != y
    ensures var s := ws[i].store;
      && x in s.queue && y in s.queue && x in s.records && y in s.records
      && !Blocking(s, x, y, s.now - s.queue[x])
  {
    hide Enabled, Do, CommaFree, Indexed, Allowed, Apply, NoneFound, Decode;
    var s, o := ws[i].store, steps[i].outcome;
    RunStep(ws, steps, digest, gap, i);
    RunIsCovered(ws, steps, digest, gap, i);
    VisitStep(ws[i], digest, gap, o, steps[i].chatID);
    VisitRemoves(s, x, o);
    UnmatchedVisit(s, x, o);
    UnmatchedMeans(s, x, y, s.now - s.queue[x]);
  }

  /** Between two requests of its own a session that stays queued keeps its join time, its
      hash and its tags. */
  lemma StepKeepsEntry(w: World, digest: Digest, gap: int, step: Step, x: string)
    requires Recorded(w.store) && Enabled(w, gap, step)
    requires x in w.store.queue && x in Do(w, digest, step).store.queue && !(step.Request? && step.sid == x)
    ensures var s, s' := w.store, Do(w, digest, step).store;
      && s.now <= s'.now && s'.queue[x] == s.queue[x]
      && x in s.records && x in s'.records && s'.records[x].value == s.records[x].value
  {
    hide Recorded, Allowed, Apply, Dequeued, Cleaned, ChatLifecycle.Do, Publishes, ChatSide,
         InterestsHash, InterestEncoding.Join, SAdd, SAddAll, Touch, TouchAll, Decode;
    QueuedHasRecord(w.store, x);
    match step
    case Tick(_) =>
    case Request(sid, tags) =>
    case Cancel(sid) => DequeueKeepsRecords(w.store, sid);
    case Refresh(sid) =>
    case PassStart(_) =>
    case VisitNext(o, _) => VisitRemoves(w.store, w.todo[0], o);
    case Clean(ids, alive) => CleanRemoves(w.store, ids, alive);
    case ChatStep(_) =>
  }

  lemma QueuedHasRecord(s: Store, x: string)
    requires Recorded(s) && x in s.queue
    ensures x in s.records
  {
    assert HasRecord(s, x);
  }

  /** x is queued from state n to state m and does not ask again in between. */
  ghost predicate Stays(ws: seq<World>, steps: seq<Step>, x: string, n: nat, m: nat)
    requires |ws| == |steps| + 1
  {
    && n <= m < |ws|
    && (forall k :: n <= k <= m ==> x in ws[k].store.queue)
    && (forall k :: n <= k < m ==> !(steps[k].Request? && steps[k].sid == x))
  }

  lemma {:induction false} StayKeepsEntry(ws: seq<World>, steps: seq<Step>, digest: Digest, gap: int, x: string,
                                          n: nat, m: nat)
    requires IsRun(ws, steps, digest, gap) && 0 <= gap <= MATCH_TIMEOUT && Stays(ws, steps, x, n, m)
    ensures var s, s' := ws[n].store, ws[m].store;
      && s.now <= s'.now && s'.queue[x] == s.queue[x]
      && x in s.records && x in s'.records && s'.records[x].value == s.records[x].value
    decreases m - n
  {
    hide Enabled, Do, Young, Recorded;
    if n == m {
      RunStaysTimely(ws, steps, digest, gap, n);
      QueuedHasRecord(ws[n].store, x);
    } else {
      StayKeepsEntry(ws, steps, digest, gap, x, n, m - 1);
      RunStaysTimely(ws, steps, digest, gap, m - 1);
      RunStep(ws, steps, digest, gap, m - 1);
      StepKeepsEntry(ws[m - 1], digest, gap, steps[m - 1], x);
    }
  }

  lemma TodoLosesOnlyTheVisited(w: World, digest: Digest, gap: int, step: Step, x: string)
    requires Enabled(w, gap, step) && x in w.todo && x !in Do(w, digest, step).todo
    ensures step.VisitNext? && w.todo[0] == x
  {
    hide Allowed, IsZRange, ChatLifecycle.Do, ChatLifecycle.Enabled, Publishes, ChatSide;
    assert w.todo == [w.todo[0]] + w.todo[1..];
  }

  /** Whoever is on the list of the running pass and later is not has had its visit. */
  lemma {:induction false} VisitedBetween(ws: seq<World>, steps: seq<Step>, digest: Digest, gap: int, x: string,
                                          n: nat, m: nat)
    returns (i: nat)
    requires IsRun(ws, steps, digest, gap) && n <= m < |ws| && x in ws[n].todo && x !in ws[m].todo
    ensures n <= i < m && steps[i].VisitNext? && ws[i].todo != [] && ws[i].todo[0] == x
    decreases m - n
  {
    hide Enabled, Do;
    if x in ws[m - 1].todo {
      RunStep(ws, steps, digest, gap, m - 1);
      TodoLosesOnlyTheVisited(ws[m - 1], digest, gap, steps[m - 1], x);
      i := m - 1;
    } else {
      i := VisitedBetween(ws, steps, digest, gap, x, n, m - 1);
    }
  }

  /** Whatever happens during a pass, users joining, leaving and asking, time going by: two
      sessions that stay queued from its start to its end did not have to meet, by the time
      either had waited when it began. */
  lemma InterruptedPassLeavesNoBlockingPair(ws: seq<World>, steps: seq<Step>, digest: Digest, gap: int,
                                            n: nat, m: nat, x: string, y: string)
    requires IsRun(ws, steps, digest, gap) && 0 <= gap <= MATCH_TIMEOUT && CommaFree(steps)
    requires n < m < |ws| && steps[n].PassStart? && ws[m].todo == []
    requires Stays(ws, steps, x, n, m) && Stays(ws, steps, y, n, m) && x != y
    ensures var s := ws[n].store;
      && x in s.records && y in s.records
      && !Blocking(s, x, y, s.now - s.queue[x])
  {
    hide Enabled, CommaFree, Decode, Blocking, Do;
    RunStep(ws, steps, digest, gap, n);
    SnapshotHasAll(ws[n], digest, gap, steps[n].ids, x);
    var i := VisitedBetween(ws, steps, digest, gap, x, n + 1, m);
    VisitSettles(ws, steps, digest, gap, n, i, x, y);
  }

  /** The visit of x at step i speaks for the state n before it. */
  lemma VisitSettles(ws: seq<World>, steps: seq<Step>, digest: Digest, gap: int, n: nat, i: nat, x: string, y: string)
    requires IsRun(ws, steps, digest, gap) && 0 <= gap <= MATCH_TIMEOUT && CommaFree(steps)
    requires n <= i < |steps| && steps[i].VisitNext? && ws[i].todo != [] && ws[i].todo[0] == x
    requires Stays(ws, steps, x, n, i + 1) && Stays(ws, steps, y, n, i + 1) && x != y
    ensures var s := ws[n].store;
      && x in s.records && y in s.records
      && !Blocking(s, x, y, s.now - s.queue[x])
  {
    hide Enabled, CommaFree, Decode, Blocking, Do, Initial;
    VisitLeavesNoBlockingPair(ws, steps, digest, gap, i, x, y);
    StayKeepsEntry(ws, steps, digest, gap, x, n, i);
    StayKeepsEntry(ws, steps, digest, gap, y, n, i);
    hide IsRun, Stays;
    var s, s' := ws[n].store, ws[i].store;
    if Blocking(s, x, y, s.now - s.queue[x]) {
      BlockingTransfers(s', s, x, y, s'.now - s'.queue[x], s.now - s.queue[x]);
    }
  }

  lemma SnapshotHasAll(w: World, digest: Digest, gap: int, ids: seq<string>, x: string)
    requires Enabled(w, gap, PassStart(ids)) && x in w.store.queue
    ensures x in Do(w, digest, PassStart(ids)).todo
  {
  }

  // ----- what happens to a session whose record has expired -----

  ghost predicate Stranded(s: Store, x: string) {
    x in s.queue && GetEntry(s, x).None?
  }

  lemma {:induction false} CleanCannotFree(s: Store, ids: seq<string>, alive: set<string>, x: string)
    requires Stranded(s, x)
    ensures Stranded(Cleaned(s, ids, alive), x)
  {
    if ids != [] {
      CleanCannotFree(s, ids[..|ids| - 1], alive, x);
      DequeueTakesEffect(Cleaned(s, ids[..|ids| - 1], alive), ids[|ids| - 1], x);
    }
  }

  /** Nothing but a new request of its own gets it out: not cancelling, not the cleanup,
      not any visit of any pass, however the steps are chosen. */
  lemma StrandedUntilRejoin(w: World, digest: Digest, step: Step, x: string)
    requires Stranded(w.store, x) && !(step.Request? && step.sid == x)
    ensures Stranded(Do(w, digest, step).store, x)
  {
    hide ChatLifecycle.Do, Publishes, ChatSide, Apply, Cleaned;
    match step
    case Tick(ms) =>
    case Request(sid, tags) => hide InterestsHash, SAdd, SAddAll, InterestEncoding.Join;
    case Cancel(sid) => DequeueTakesEffect(w.store, sid, x);
    case Refresh(sid) => hide Touch, TouchAll, Decode;
    case PassStart(_) =>
    case VisitNext(o, _) =>
      StrandedSurvives(w.store, [o], x);
      assert [o][..0] == [];
    case Clean(ids, alive) => CleanCannotFree(w.store, ids, alive, x);
    case ChatStep(_) =>
  }

  // ----- a run with a longer gap -----

  /** The queue after "a" joined at 0 and "b" at 35 s, both without interests, at 60 s. */
  function LateStore(digest: Digest): Store {
    Later(Enqueued(Later(Enqueued(EMPTY, digest, "a", []), 35_000), digest, "b", []), 60_000)
  }

  const LATE_PAIR := Paired(MatchCandidate("b", "a", []))

  lemma LateHash(digest: Digest)
    ensures InterestsHash(digest, []) == digest("") && Join([]) == "" && Decode("") == []
  {
  }

  lemma LateQueue(digest: Digest)
    ensures var s := LateStore(digest);
      && s.now == 60_000 && s.queue == map["a" := 0, "b" := 35_000]
      && s.records == map["a" := Keyed(Record("", digest(""), 0), 60_000),
                          "b" := Keyed(Record("", digest(""), 35_000), 95_000)]
      && s.exact == map[digest("") := Keyed({"a", "b"}, 95_000)]
  {
    hide InterestsHash, Join, Decode;
    LateHash(digest);
    var first := Enqueued(EMPTY, digest, "a", []);
    assert {} + {"a"} == {"a"} && {"a"} + {"b"} == {"a", "b"};
    assert first.exact == map[digest("") := Keyed({"a"}, 60_000)];
    assert Members(first.exact, digest(""), 35_000) == {"a"};
  }

  /** "a" is stranded, and yet handed out to "b", which waits under the same hash. */
  lemma LatePass(digest: Digest)
    ensures var s := LateStore(digest);
      && Stranded(s, "a")
      && IsZRange(s.queue, s.queue.Keys, ["a", "b"])
      && Allowed(s, "a", Skipped)
      && Allowed(s, "b", LATE_PAIR)
  {
    LateQueue(digest);
    LateHash(digest);
    var s := LateStore(digest);
    hide LateStore, InterestsHash;
    assert "a" != "b";
    assert GetEntry(s, "b") == Some(Entry("b", [], digest(""), 35_000));
    assert ExactCandidate(s, "b", "a");
  }

  lemma LoneVisitUnmatched(s: Store, x: string)
    requires s.queue.Keys == {x} && GetEntry(s, x).Some?
    requires s.now - GetEntry(s, x).value.joinedAt < MATCH_TIMEOUT
    ensures Allowed(s, x, Unmatched) && IsZRange(s.queue, s.queue.Keys, [x])
  {
    assert forall y :: !ExactCandidate(s, x, y) && !TagCandidate(s, x, y);
  }

  lemma LoneVisitor(digest: Digest)
    ensures var s := Later(Enqueued(EMPTY, digest, "a", []), 29_999);
      Allowed(s, "a", Unmatched) && IsZRange(s.queue, s.queue.Keys, ["a"])
  {
    var s := Later(Enqueued(EMPTY, digest, "a", []), 29_999);
    assert s.queue.Keys == {"a"};
    LoneVisitUnmatched(s, "a");
  }

  lemma Extend(ws: seq<World>, steps: seq<Step>, digest: Digest, gap: int, step: Step)
    requires IsRun(ws, steps, digest, gap) && Enabled(ws[|steps|], gap, step)
    ensures IsRun(ws + [Do(ws[|steps|], digest, step)], steps + [step], digest, gap)
  {
    hide Enabled, Do, Initial;
  }

  /** Where a run without chats stands. */
  ghost predicate Stands(w: World, store: Store, todo: seq<string>, started: int, lastPass: int) {
    w.store == store && w.todo == todo && w.started == started && w.lastPass == lastPass && w.chats.used == map[]
  }

  lemma UsesNoID(w: World, digest: Digest, step: Step)
    requires step.VisitNext? ==> !step.outcome.Paired?
    requires !step.ChatStep?
    ensures Do(w, digest, step).chats.used == w.chats.used
  {
    hide QueueSide, Publishes;
  }

  lemma MoveOn(ws: seq<World>, steps: seq<Step>, digest: Digest, gap: int, step: Step)
    returns (ws': seq<World>, steps': seq<Step>)
    requires IsRun(ws, steps, digest, gap) && Enabled(ws[|steps|], gap, step)
    requires !step.ChatStep? && (step.VisitNext? ==> !step.outcome.Paired?)
    requires ws[|steps|].chats.used == map[]
    ensures IsRun(ws', steps', digest, gap) && steps' == steps + [step]
    ensures |ws'| == |ws| + 1 && ws'[..|ws|] == ws
    ensures var w := QueueSide(ws[|steps|], digest, step);
      Stands(ws'[|steps'|], w.store, w.todo, w.started, w.lastPass)
  {
    hide Enabled, Initial, QueueSide, ChatSide, Publishes;
    Extend(ws, steps, digest, gap, step);
    UsesNoID(ws[|steps|], digest, step);
    ws', steps' := ws + [Do(ws[|steps|], digest, step)], steps + [step];
  }

  /** "a" joins, and a pass just before its thirty seconds are over leaves it alone. */
  lemma LateStart(digest: Digest, gap: int) returns (ws: seq<World>, steps: seq<Step>)
    requires gap > MATCH_TIMEOUT
    ensures IsRun(ws, steps, digest, gap) && |steps| == 5 && |ws| == 6
    ensures Stands(ws[5], Later(Enqueued(EMPTY, digest, "a", []), 35_000), [], 29_999, 29_999)
  {
    hide Enqueued, Allowed, IsZRange, ChatLifecycle.Do, Do;
    var chats := ChatLifecycle.World(ChatStore.Db(0, map[], map[]), [], 0, 0, map[], []);
    ws, steps := [World(EMPTY, [], 0, 0, chats, [])], [];
    assert IsRun(ws, steps, digest, gap);
    hide IsRun;
    LoneVisitor(digest);
    JoinQueue(EMPTY, digest, "a", []);
    ws, steps := MoveOn(ws, steps, digest, gap, Request("a", []));
    ws, steps := MoveOn(ws, steps, digest, gap, Tick(29_999));
    ws, steps := MoveOn(ws, steps, digest, gap, PassStart(["a"]));
    ws, steps := MoveOn(ws, steps, digest, gap, VisitNext(Unmatched, "-"));
    ws, steps := MoveOn(ws, steps, digest, gap, Tick(5_001));
  }

  /** "b" joins; when the next pass comes, the record of "a" is gone and "a" is what "b" is
      offered. */
  lemma LateRun(digest: Digest, gap: int) returns (ws: seq<World>, steps: seq<Step>)
    requires gap > MATCH_TIMEOUT
    ensures IsRun(ws, steps, digest, gap) && |steps| == 10 && |ws| == 11
    ensures ws[9].todo == ["b"] && steps[9] == VisitNext(LATE_PAIR, "c")
    ensures Stranded(ws[9].store, "a") && Stranded(ws[10].store, "a")
  {
    hide Enqueued, Allowed, IsZRange, IsRun, Stranded, Do;
    ws, steps := LateStart(digest, gap);
    var s := ws[5].store;
    LatePass(digest);
    JoinQueue(EMPTY, digest, "a", []);
    JoinQueue(s, digest, "b", []);
    ws, steps := MoveOn(ws, steps, digest, gap, Request("b", []));
    ws, steps := MoveOn(ws, steps, digest, gap, Tick(25_000));
    assert ws[7].store == LateStore(digest);
    ws, steps := MoveOn(ws, steps, digest, gap, PassStart(["a", "b"]));
    ws, steps := MoveOn(ws, steps, digest, gap, VisitNext(Skipped, "-"));
    Extend(ws, steps, digest, gap, VisitNext(LATE_PAIR, "c"));
    StrandedUntilRejoin(ws[9], digest, VisitNext(LATE_PAIR, "c"), "a");
    ws, steps := ws + [Do(ws[9], digest, VisitNext(LATE_PAIR, "c"))], steps + [VisitNext(LATE_PAIR, "c")];
  }

  // ----- thirty seconds is the exact bound on the gap -----

  ghost predicate RecordsLive(s: Store) {
    forall x :: x in s.queue ==> GetEntry(s, x).Some?
  }

  ghost predicate RecordsNeverExpire(digest: Digest, gap: int) {
    forall ws: seq<World>, steps: seq<Step>, n: nat ::
      IsRun(ws, steps, digest, gap) && n < |ws| ==> RecordsLive(ws[n].store)
  }

  lemma GapBoundIsExact(digest: Digest, gap: nat)
    ensures RecordsNeverExpire(digest, gap) <==> gap <= 30_000
  {
    hide IsRun;
    if gap <= MATCH_TIMEOUT {
      forall ws: seq<World>, steps: seq<Step>, n: nat | IsRun(ws, steps, digest, gap) && n < |ws|
        ensures RecordsLive(ws[n].store)
      {
        forall x | x in ws[n].store.queue ensures GetEntry(ws[n].store, x).Some? {
          RunSafety(ws, steps, digest, gap, n, x);
        }
      }
    } else {
      var ws, steps := LateRun(digest, gap);
      assert !RecordsLive(ws[9].store);
    }
  }

  // ----- the ledger of a run -----

  datatype Way = ByMatch | ByTimeout | ByCancel | ByCleanup

  /** How often the step takes x out of the queue in the given way. */
  function Exits(w: World, step: Step, x: string, way: Way): nat {
    match (way, step)
    case (ByMatch, VisitNext(o, _)) => if w.todo != [] && o.Paired? && x in Gone(o) then 1 else 0
    case (ByTimeout, VisitNext(o, _)) => if w.todo != [] && o == TimedOut(x) then 1 else 0
    case (ByCancel, Cancel(sid)) => if sid == x && x in w.store.queue then 1 else 0
    case (ByCleanup, Clean(ids, alive)) => if x in w.store.queue && x in ids && x !in alive then 1 else 0
    case _ => 0
  }

  /** A request that puts x into the queue, not one that repeats it. */
  function Entries(w: World, step: Step, x: string): nat {
    if step.Request? && step.sid == x && x !in w.store.queue then 1 else 0
  }

  function Queued(w: World, x: string): nat {
    if x in w.store.queue then 1 else 0
  }

  lemma StepLedger(w: World, digest: Digest, gap: int, step: Step, x: string)
    requires Recorded(w.store) && Enabled(w, gap, step)
    ensures Queued(w, x) + Entries(w, step, x) ==
            Queued(Do(w, digest, step), x) + Exits(w, step, x, ByMatch) + Exits(w, step, x, ByTimeout) +
            Exits(w, step, x, ByCancel) + Exits(w, step, x, ByCleanup)
  {
    hide Recorded, Allowed, Apply, Enqueued, Dequeued, Refreshed, Cleaned, ChatLifecycle.Do, Publishes, ChatSide;
    match step
    case Tick(_) =>
    case Request(sid, tags) => JoinQueue(w.store, digest, sid, tags);
    case Cancel(sid) => DequeueKeepsRecords(w.store, sid);
    case Refresh(sid) => RefreshKeepsRecords(w.store, sid);
    case PassStart(_) =>
    case VisitNext(o, _) => VisitRemoves(w.store, w.todo[0], o);
    case Clean(ids, alive) => CleanRemoves(w.store, ids, alive);
    case ChatStep(_) =>
  }

  function TotalExits(ws: seq<World>, steps: seq<Step>, x: string, way: Way, n: nat): nat
    requires n <= |steps| < |ws|
  {
    if n == 0 then 0 else TotalExits(ws, steps, x, way, n - 1) + Exits(ws[n - 1], steps[n - 1], x, way)
  }

  function TotalEntries(ws: seq<World>, steps: seq<Step>, x: string, n: nat): nat
    requires n <= |steps| < |ws|
  {
    if n == 0 then 0 else TotalEntries(ws, steps, x, n - 1) + Entries(ws[n - 1], steps[n - 1], x)
  }

  ghost predicate Balanced(ws: seq<World>, steps: seq<Step>, x: string, n: nat)
    requires n <= |steps| < |ws|
  {
    TotalEntries(ws, steps, x, n) ==
    TotalExits(ws, steps, x, ByMatch, n) + TotalExits(ws, steps, x, ByTimeout, n) +
    TotalExits(ws, steps, x, ByCancel, n) + TotalExits(ws, steps, x, ByCleanup, n) + Queued(ws[n], x)
  }

  /** Every stay in the queue ends in exactly one way: over any run, a session's entries
      equal its matches, timeouts, cancellations and cleanups, plus one if it is waiting. */
  lemma {:induction false} RunLedger(ws: seq<World>, steps: seq<Step>, digest: Digest, gap: int, x: string, n: nat)
    requires IsRun(ws, steps, digest, gap) && 0 <= gap <= MATCH_TIMEOUT && n <= |steps|
    ensures Balanced(ws, steps, x, n)
  {
    hide Enabled, Do, Exits, Entries;
    if n > 0 {
      hide Queued, Young, Recorded;
      RunLedger(ws, steps, digest, gap, x, n - 1);
      RunStaysTimely(ws, steps, digest, gap, n - 1);
      StepLedger(ws[n - 1], digest, gap, steps[n - 1], x);
    }
  }

  ghost predicate LedgerHolds(digest: Digest, gap: int) {
    forall ws: seq<World>, steps: seq<Step>, x: string, n: nat ::
      IsRun(ws, steps, digest, gap) && n <= |steps| < |ws| ==> Balanced(ws, steps, x, n)
  }

  /** With a longer gap the books do not balance: a stranded session is handed out as a
      partner, which counts as a match, and stays in the queue. */
  lemma StrandedIsHandedOut(digest: Digest, gap: int) returns (ws: seq<World>, steps: seq<Step>)
    requires gap > MATCH_TIMEOUT
    ensures IsRun(ws, steps, digest, gap) && |steps| == 10 && |ws| == 11
    ensures Stranded(ws[9].store, "a") && steps[9].VisitNext? && steps[9].outcome.Paired?
    ensures steps[9].outcome.pair.sessionB == "a" && Stranded(ws[10].store, "a")
    ensures !Balanced(ws, steps, "a", 9) || !Balanced(ws, steps, "a", 10)
  {
    hide IsRun;
    ws, steps := LateRun(digest, gap);
    assert Exits(ws[9], steps[9], "a", ByMatch) == 1 && Entries(ws[9], steps[9], "a") == 0;
    assert Queued(ws[9], "a") == Queued(ws[10], "a") == 1;
  }

  lemma LedgerBoundIsExact(digest: Digest, gap: nat)
    ensures LedgerHolds(digest, gap) <==> gap <= 30_000
  {
    hide IsRun, Balanced;
    if gap <= MATCH_TIMEOUT {
      forall ws: seq<World>, steps: seq<Step>, x: string, n: nat |
        IsRun(ws, steps, digest, gap) && n <= |steps| < |ws|
        ensures Balanced(ws, steps, x, n)
      {
        RunLedger(ws, steps, digest, gap, x, n);
      }
    } else {
      var ws, steps := StrandedIsHandedOut(digest, gap);
      assert !(Balanced(ws, steps, "a", 9) && Balanced(ws, steps, "a", 10));
    }
  }

  // ----- chats and results -----

  /** The chats opened so far that name x. */
  ghost function ChatsOf(w: World, x: string): set<string> {
    Naming(w.chats.used, x)
  }

  function Naming(used: map<string, (string, string)>, x: string): set<string> {
    set id | id in used && (used[id].0 == x || used[id].1 == x)
  }

  lemma NamingMember(used: map<string, (string, string)>, id: string, a: string, b: string, x: string, i: string)
    requires id !in used
    ensures i in Naming(used[id := (a, b)], x) <==> i in Naming(used, x) || (i == id && (x == a || x == b))
    ensures id !in Naming(used, x)
  {
  }

  lemma NamingOneMore(used: map<string, (string, string)>, id: string, a: string, b: string, x: string)
    requires id !in used
    ensures |Naming(used[id := (a, b)], x)| == |Naming(used, x)| + if x == a || x == b then 1 else 0
  {
    hide Naming;
    forall i
      ensures i in Naming(used[id := (a, b)], x) <==> i in Naming(used, x) || (i == id && (x == a || x == b))
      ensures id !in Naming(used, x)
    {
      NamingMember(used, id, a, b, x, i);
    }
    if x == a || x == b {
      assert Naming(used[id := (a, b)], x) == Naming(used, x) + {id};
    } else {
      assert Naming(used[id := (a, b)], x) == Naming(used, x);
    }
  }

  lemma StepUses(w: World, digest: Digest, gap: int, step: Step)
    requires Enabled(w, gap, step)
    ensures var o := if step.VisitNext? then step.outcome else Skipped;
      Do(w, digest, step).chats.used ==
      if o.Paired? then w.chats.used[step.chatID := (o.pair.sessionA, o.pair.sessionB)] else w.chats.used
  {
    hide QueueSide, Publishes, Allowed, ChatLifecycle.Sends;
  }

  lemma StepChats(w: World, digest: Digest, gap: int, step: Step, x: string)
    requires Enabled(w, gap, step)
    ensures |ChatsOf(Do(w, digest, step), x)| == |ChatsOf(w, x)| + Exits(w, step, x, ByMatch)
  {
    hide Do, Allowed, ChatLifecycle.Enabled, IsZRange, Naming;
    StepUses(w, digest, gap, step);
    if step.VisitNext? && step.outcome.Paired? {
      NamingOneMore(w.chats.used, step.chatID, step.outcome.pair.sessionA, step.outcome.pair.sessionB, x);
    }
  }

  lemma StepTells(w: World, digest: Digest, gap: int, step: Step, x: string)
    requires Enabled(w, gap, step)
    ensures Told(Do(w, digest, step).sent, x) ==
            Told(w.sent, x) + Exits(w, step, x, ByMatch) + Exits(w, step, x, ByTimeout)
  {
    hide Allowed, ChatLifecycle.Do, QueueSide, Results, Told;
    if step.VisitNext? {
      VisitTells(w.store, w.todo[0], step.outcome, step.chatID, x);
      ToldConcat(w.sent, Results(step.outcome, step.chatID), x);
    } else {
      assert w.sent + [] == w.sent;
    }
  }

  /** In any run, with any gap: one chat naming the session for each of its matches, and one
      result sent to it for each match and each timeout. */
  lemma {:induction false} MatchesBecomeChats(ws: seq<World>, steps: seq<Step>, digest: Digest, gap: int, x: string,
                                              n: nat)
    requires IsRun(ws, steps, digest, gap) && n <= |steps|
    ensures |ChatsOf(ws[n], x)| == TotalExits(ws, steps, x, ByMatch, n)
    ensures Told(ws[n].sent, x) == TotalExits(ws, steps, x, ByMatch, n) + TotalExits(ws, steps, x, ByTimeout, n)
  {
    hide Enabled, Do, Exits;
    if n == 0 {
      assert ChatsOf(ws[0], x) == {};
    } else {
      hide ChatsOf, Told;
      MatchesBecomeChats(ws, steps, digest, gap, x, n - 1);
      StepChats(ws[n - 1], digest, gap, steps[n - 1], x);
      StepTells(ws[n - 1], digest, gap, steps[n - 1], x);
    }
  }

  /** Each stay yields at most one chat and at most one result. */
  lemma StayYieldsOneChat(ws: seq<World>, steps: seq<Step>, digest: Digest, gap: int, x: string, n: nat)
    requires IsRun(ws, steps, digest, gap) && 0 <= gap <= MATCH_TIMEOUT && n <= |steps|
    ensures |ChatsOf(ws[n], x)| <= Told(ws[n].sent, x) <= TotalEntries(ws, steps, x, n)
  {
    hide IsRun, ChatsOf, Told, TotalExits, TotalEntries;
    MatchesBecomeChats(ws, steps, digest, gap, x, n);
    RunLedger(ws, steps, digest, gap, x, n);
  }

  // ----- what the results say -----

  /** r tells one of the pair m about the other and the chat id. */
  ghost predicate Tells(r: MatchResult, m: MatchCandidate, id: string) {
    || r == Found(m.sessionA, id, m.sessionB, m.sharedInterests, 15)
    || r == Found(m.sessionB, id, m.sessionA, m.sharedInterests, 15)
  }

  /** A step publishes a match result only for a pair, to its two users about each other, and
      the chat it opens is theirs. */
  lemma StepTellsTruth(w: World, digest: Digest, gap: int, step: Step, r: MatchResult)
    requires Enabled(w, gap, step) && r in Publishes(w, step) && r.Found?
    ensures step.VisitNext? && step.outcome.Paired? && r.chatID == step.chatID && r.chatID !in w.chats.used
    ensures Tells(r, step.outcome.pair, step.chatID)
    ensures step.outcome.pair.sessionA != step.outcome.pair.sessionB
    ensures var used := Do(w, digest, step).chats.used;
      r.chatID in used && used[r.chatID] == (step.outcome.pair.sessionA, step.outcome.pair.sessionB)
  {
    StepUses(w, digest, gap, step);
    ResultNamesPartner(w.store, w.todo[0], step.outcome, w.chats.db, step.chatID, r);
    PairIsQueued(w.store, w.todo[0], step.outcome.pair);
  }

  lemma UsedStays(w: World, digest: Digest, gap: int, step: Step, id: string)
    requires Enabled(w, gap, step) && id in w.chats.used
    ensures id in Do(w, digest, step).chats.used && Do(w, digest, step).chats.used[id] == w.chats.used[id]
  {
    hide Do, Allowed, ChatLifecycle.Enabled, IsZRange;
    StepUses(w, digest, gap, step);
  }

  lemma SentGrows(w: World, digest: Digest, step: Step)
    ensures Do(w, digest, step).sent == w.sent + Publishes(w, step)
  {
    hide QueueSide, Publishes, ChatLifecycle.Do, ChatSide;
  }

  /** In every run, whatever the gap: a match result names a chat, and the other of its two
      users, and comes from the one visit that paired them. */
  lemma {:induction false} FoundIsTrue(ws: seq<World>, steps: seq<Step>, digest: Digest, gap: int, n: nat,
                                       r: MatchResult)
    returns (i: nat)
    requires IsRun(ws, steps, digest, gap) && n < |ws| && r in ws[n].sent && r.Found?
    ensures i < n && steps[i].VisitNext? && steps[i].outcome.Paired? && r.chatID == steps[i].chatID
    ensures r.chatID !in ws[i].chats.used && Tells(r, steps[i].outcome.pair, r.chatID) && r.to != r.partner
    ensures r.chatID in ws[n].chats.used
    ensures ws[n].chats.used[r.chatID] == (steps[i].outcome.pair.sessionA, steps[i].outcome.pair.sessionB)
  {
    hide Enabled, Do, Publishes;
    RunStep(ws, steps, digest, gap, n - 1);
    SentGrows(ws[n - 1], digest, steps[n - 1]);
    if r in ws[n - 1].sent {
      i := FoundIsTrue(ws, steps, digest, gap, n - 1, r);
      UsedStays(ws[n - 1], digest, gap, steps[n - 1], r.chatID);
    } else {
      i := n - 1;
      StepTellsTruth(ws[i], digest, gap, steps[i], r);
    }
  }

  lemma {:induction false} UsedAfterwards(ws: seq<World>, steps: seq<Step>, digest: Digest, gap: int, i: nat, n: nat)
    requires IsRun(ws, steps, digest, gap) && i < n < |ws| && steps[i].VisitNext? && steps[i].outcome.Paired?
    ensures steps[i].chatID in ws[n].chats.used
    decreases n - i
  {
    hide Enabled, Do;
    RunStep(ws, steps, digest, gap, n - 1);
    if n == i + 1 {
      StepUses(ws[i], digest, gap, steps[i]);
    } else {
      UsedAfterwards(ws, steps, digest, gap, i, n - 1);
      UsedStays(ws[n - 1], digest, gap, steps[n - 1], steps[i].chatID);
    }
  }

  /** Two results about one chat carry the same shared interests, and are for the same user
      or name each other's. */
  lemma FoundsAgree(ws: seq<World>, steps: seq<Step>, digest: Digest, gap: int, n: nat, r: MatchResult, r': MatchResult)
    requires IsRun(ws, steps, digest, gap) && n < |ws|
    requires r in ws[n].sent && r' in ws[n].sent && r.Found? && r'.Found? && r.chatID == r'.chatID
    ensures r.sharedInterests == r'.sharedInterests
    ensures r == r' || (r.to == r'.partner && r.partner == r'.to)
  {
    hide Enabled, Do;
    var i := FoundIsTrue(ws, steps, digest, gap, n, r);
    var j := FoundIsTrue(ws, steps, digest, gap, n, r');
    if i < j {
      UsedAfterwards(ws, steps, digest, gap, i, j);
    } else if j < i {
      UsedAfterwards(ws, steps, digest, gap, j, i);
    }
  }

  /** Every pair is told: after the visit both results are among those published. */
  lemma {:induction false} PairsAreTold(ws: seq<World>, steps: seq<Step>, digest: Digest, gap: int, i: nat, n: nat,
                                        r: MatchResult)
    requires IsRun(ws, steps, digest, gap) && i < n < |ws| && steps[i].VisitNext? && steps[i].outcome.Paired?
    requires Tells(r, steps[i].outcome.pair, steps[i].chatID)
    ensures r in ws[n].sent
    decreases n - i
  {
    hide Enabled, Do;
    RunStep(ws, steps, digest, gap, n - 1);
    SentGrows(ws[n - 1], digest, steps[n - 1]);
    if n == i + 1 {
      VisitStep(ws[i], digest, gap, steps[i].outcome, steps[i].chatID);
    } else {
      PairsAreTold(ws, steps, digest, gap, i, n - 1, r);
    }
  }

  // ----- the chats' side of a run is a run of the chats -----

  /** The last completed deadline cleanup of the chats began at most gap ago. */
  ghost predicate ChatsOnTime(ws: seq<World>, steps: seq<Step>, gap: int)
    requires |steps| < |ws|
  {
    forall i :: 0 <= i < |steps| && steps[i].Tick? ==>
      ChatLifecycle.Enabled(ws[i].chats, gap, ChatSide(ws[i], steps[i]))
  }

  function ChatWorlds(ws: seq<World>): seq<ChatLifecycle.World> {
    seq(|ws|, i requires 0 <= i < |ws| => ws[i].chats)
  }

  function ChatSteps(ws: seq<World>, steps: seq<Step>): seq<ChatLifecycle.Step>
    requires |steps| < |ws|
  {
    seq(|steps|, i requires 0 <= i < |steps| => ChatSide(ws[i], steps[i]))
  }

  lemma ChatSideEnabled(w: World, gap: int, chatGap: nat, step: Step)
    requires Enabled(w, gap, step) && ChatLifecycle.OnTime(w.chats, chatGap)
    requires step.Tick? ==> ChatLifecycle.Enabled(w.chats, chatGap, ChatSide(w, step))
    ensures ChatLifecycle.Enabled(w.chats, chatGap, ChatSide(w, step))
  {
    hide Allowed, IsZRange;
  }

  lemma {:induction false} ChatsStayOnTime(ws: seq<World>, steps: seq<Step>, digest: Digest, gap: int, chatGap: nat,
                                           n: nat)
    requires IsRun(ws, steps, digest, gap) && ChatsOnTime(ws, steps, chatGap) && n <= |steps|
    ensures ChatLifecycle.OnTime(ws[n].chats, chatGap)
    ensures n < |steps| ==> ChatLifecycle.Enabled(ws[n].chats, chatGap, ChatSide(ws[n], steps[n]))
  {
    hide Enabled, ChatSide, QueueSide, Publishes, ChatLifecycle.Do, ChatLifecycle.Enabled;
    if n > 0 {
      ChatsStayOnTime(ws, steps, digest, gap, chatGap, n - 1);
      RunStep(ws, steps, digest, gap, n - 1);
      ChatLifecycle.StepKeepsOnTime(ws[n - 1].chats, chatGap, ChatSide(ws[n - 1], steps[n - 1]));
    }
    if n < |steps| {
      hide ChatLifecycle.OnTime;
      ChatSideEnabled(ws[n], gap, chatGap, steps[n]);
    }
  }

  lemma ChatsRun(ws: seq<World>, steps: seq<Step>, digest: Digest, gap: int, chatGap: nat)
    requires IsRun(ws, steps, digest, gap) && ChatsOnTime(ws, steps, chatGap)
    ensures ChatLifecycle.IsRun(ChatWorlds(ws), ChatSteps(ws, steps), chatGap)
  {
    hide Enabled, ChatSide, QueueSide, Publishes, ChatLifecycle.Do, ChatLifecycle.Enabled;
    var chats, chatSteps := ChatWorlds(ws), ChatSteps(ws, steps);
    forall i | 0 <= i < |steps|
      ensures ChatLifecycle.Enabled(chats[i], chatGap, chatSteps[i])
      ensures chats[i + 1] == ChatLifecycle.Do(chats[i], chatSteps[i])
    {
      ChatsStayOnTime(ws, steps, digest, gap, chatGap, i);
      RunStep(ws, steps, digest, gap, i);
    }
  }

  /** From the match to its end: with the deadline cleanup at most 45 seconds apart, every
      chat a match has opened is still pending or has been activated, refused, timed out or
      ended, in exactly one of these ways. */
  lemma MatchesAreSettled(ws: seq<World>, steps: seq<Step>, digest: Digest, gap: int, chatGap: nat, id: string, n: nat)
    requires IsRun(ws, steps, digest, gap) && n <= |steps|
    requires ChatsOnTime(ws, steps, chatGap) && chatGap <= 45_000
    ensures var chats, chatSteps := ChatWorlds(ws), ChatSteps(ws, steps);
      (if id in ws[n].chats.used then 1 else 0) ==
      ChatLifecycle.Pending(chats[n], id) +
      ChatLifecycle.TotalExits(chats, chatSteps, id, ChatLifecycle.Activated, n) +
      ChatLifecycle.TotalExits(chats, chatSteps, id, ChatLifecycle.Refused, n) +
      ChatLifecycle.TotalExits(chats, chatSteps, id, ChatLifecycle.Expired, n) +
      ChatLifecycle.TotalExits(chats, chatSteps, id, ChatLifecycle.EndedEarly, n)
  {
    hide ChatLifecycle.TotalExits, ChatLifecycle.Pending, Do, Enabled, ChatsOnTime, ChatLifecycle.IsRun;
    ChatsRun(ws, steps, digest, gap, chatGap);
    ChatLifecycle.BornOnce(ChatWorlds(ws), ChatSteps(ws, steps), chatGap, id, n);
    ChatLifecycle.ExactlyOneWayOut(ChatWorlds(ws), ChatSteps(ws, steps), chatGap, id, n);
  }
}
