/**
 The life of a pending chat: created by the matcher, accepted, declined or ended by the
 handlers of cmd/wsserver/main.go, or expired by the deadline cleanup of
 internal/matching/cleanup.go. The cleanup takes a snapshot of the due chats and then
 treats them one by one; other steps may come between two of them.
 */
module ChatLifecycle {
  import opened Redis
  import opened ChatStore

  // ----- notifications and handlers -----

  /** match_accepted to the caller; accepted, declined and timed_out over match.notify. */
  datatype Kind = Answered | PartnerAccepted | PartnerDeclined | TimedOut

  /** A message to one user about a chat, or the event that all listeners of it receive. */
  datatype Note = Note(user: string, kind: Kind, chatID: string) | PartnerLeft(chatID: string, from: string)

  /** The call that activates a chat is answered, and the partner is notified. */
  function AcceptNotes(db: Db, id: string, sid: string): seq<Note> {
    if Accepted(db, id, sid).1 != 1 then []
    else [Note(sid, Answered, id), Note(Get(db, id).value.GetPartner(sid), PartnerAccepted, id)]
  }

  /** accept_match; the partner is read from the chat after the script has run. */
  method AcceptMatch(store: Store, id: string, sid: string) returns (notes: seq<Note>)
    modifies store
    ensures store.State() == Accepted(old(store.State()), id, sid).0
    ensures notes == AcceptNotes(old(store.State()), id, sid)
  {
    notes := [];
    var code := store.AcceptMatch(id, sid);
    if code == 1 {
      notes := [Note(sid, Answered, id)];
      var chat := Get(store.State(), id);
      if chat.Some? {
        notes := notes + [Note(chat.value.GetPartner(sid), PartnerAccepted, id)];
      }
    }
  }

  function Declined(db: Db, id: string): Db {
    if Get(db, id).None? then db else Deleted(db, id)
  }

  function DeclineNotes(db: Db, id: string, sid: string): seq<Note> {
    if Get(db, id).None? then [] else [Note(Get(db, id).value.GetPartner(sid), PartnerDeclined, id)]
  }

  /** decline_match: any session that names a live chat deletes it, whatever its status. */
  method DeclineMatch(store: Store, id: string, sid: string) returns (notes: seq<Note>)
    modifies store
    ensures store.State() == Declined(old(store.State()), id)
    ensures notes == DeclineNotes(old(store.State()), id, sid)
  {
    var chat := Get(store.State(), id);
    if chat.None? {
      return [];
    }
    store.Delete(id);
    return [Note(chat.value.GetPartner(sid), PartnerDeclined, id)];
  }

  function Ended(db: Db, id: string, sid: string): Db {
    if Get(db, id).None? || !Get(db, id).value.IsParticipant(sid) then db else Deleted(db, id)
  }

  function EndNotes(db: Db, id: string, sid: string): seq<Note> {
    if Get(db, id).None? || !Get(db, id).value.IsParticipant(sid) then [] else [PartnerLeft(id, sid)]
  }

  method EndChat(store: Store, id: string, sid: string) returns (notes: seq<Note>)
    modifies store
    ensures store.State() == Ended(old(store.State()), id, sid)
    ensures notes == EndNotes(old(store.State()), id, sid)
  {
    var chat := Get(store.State(), id);
    if chat.None? || !chat.value.IsParticipant(sid) {
      return [];
    }
    store.Delete(id);
    return [PartnerLeft(id, sid)];
  }

  ghost predicate IsPending(db: Db, id: string) {
    Get(db, id).Some? && Get(db, id).value.status == PendingAccept
  }

  /** The cleanup body for one chat: delete it if it is still pending, untrack it anyway. */
  function CleanedOne(db: Db, id: string): Db {
    var chat := Get(db, id);
    if chat.Some? && chat.value.status == PendingAccept then Deleted(db, id)
    else db.(tracking := db.tracking - {id})
  }

  function TimeoutNotes(db: Db, id: string): seq<Note> {
    var chat := Get(db, id);
    if chat.Some? && chat.value.status == PendingAccept then
      (if chat.value.userA != "" then [Note(chat.value.userA, TimedOut, id)] else []) +
      (if chat.value.userB != "" then [Note(chat.value.userB, TimedOut, id)] else [])
    else []
  }

  function CleanedAll(db: Db, ids: seq<string>): Db {
    if ids == [] then db else CleanedOne(CleanedAll(db, ids[..|ids| - 1]), ids[|ids| - 1])
  }

  function CleanupNotes(db: Db, ids: seq<string>): seq<Note> {
    if ids == [] then []
    else
      var init := ids[..|ids| - 1];
      CleanupNotes(db, init) + TimeoutNotes(CleanedAll(db, init), ids[|ids| - 1])
  }

  /** ZRANGEBYSCORE 0 now on the tracking set. */
  ghost predicate IsDue(db: Db, ids: seq<string>) {
    && (forall id :: id in ids <==> id in db.tracking && 0 <= db.tracking[id] <= Seconds(db.now))
    && forall i, j :: 0 <= i < j < |ids| ==> ids[i] != ids[j]
  }

  method DueChats(store: Store) returns (ids: seq<string>)
    ensures IsDue(store.State(), ids)
  {
    ids := [];
    var rest := store.tracking.Keys;
    while rest != {}
      invariant rest <= store.tracking.Keys
      invariant forall id :: id in ids <==>
                  id in store.tracking && id !in rest && 0 <= store.tracking[id] <= Seconds(store.now)
      invariant forall i, j :: 0 <= i < j < |ids| ==> ids[i] != ids[j]
      decreases rest
    {
      var id :| id in rest;
      if 0 <= store.tracking[id] <= Seconds(store.now) {
        ids := ids + [id];
      }
      rest := rest - {id};
    }
  }

  method CleanChat(store: Store, id: string) returns (notes: seq<Note>)
    modifies store
    ensures store.State() == CleanedOne(old(store.State()), id)
    ensures notes == TimeoutNotes(old(store.State()), id)
  {
    notes := [];
    var chat := Get(store.State(), id);
    if chat.Some? && chat.value.status == PendingAccept {
      if chat.value.userA != "" {
        notes := notes + [Note(chat.value.userA, TimedOut, id)];
      }
      if chat.value.userB != "" {
        notes := notes + [Note(chat.value.userB, TimedOut, id)];
      }
      store.chats := store.chats - {id};
    }
    store.tracking := store.tracking - {id};
  }

  method CleanExpiredPendingChats(store: Store) returns (ids: seq<string>, notes: seq<Note>)
    modifies store
    ensures IsDue(old(store.State()), ids)
    ensures store.State() == CleanedAll(old(store.State()), ids)
    ensures notes == CleanupNotes(old(store.State()), ids)
  {
    ids := DueChats(store);
    notes := [];
    ghost var db := store.State();
    for i := 0 to |ids|
      invariant store.State() == CleanedAll(db, ids[..i])
      invariant notes == CleanupNotes(db, ids[..i])
    {
      assert ids[..i + 1][..i] == ids[..i];
      var more := CleanChat(store, ids[i]);
      notes := notes + more;
    }
    assert ids[..|ids|] == ids;
  }

  // ----- steps and runs -----

  datatype Step =
    | Tick(ms: nat)
    | Create(id: string, a: string, b: string)
    | Accept(id: string, sid: string)
    | Decline(id: string, sid: string)
    | End(id: string, sid: string)
    | CleanStart(ids: seq<string>)
    | CleanNext

  /** The store, the chats the running cleanup has still to treat, when it took its
      snapshot, when the last cleanup to be completed took its own, the chat IDs handed out
      so far with their two users, and everything sent. */
  datatype World = World(
    db: Db, todo: seq<string>, started: int, lastClean: int,
    used: map<string, (string, string)>, notes: seq<Note>)

  function Moved(w: World, step: Step): World {
    match step
    case Tick(ms) => w.(db := w.db.(now := w.db.now + ms))
    case Create(id, a, b) => w.(db := Created(w.db, id, a, b), used := w.used[id := (a, b)])
    case Accept(id, sid) => w.(db := Accepted(w.db, id, sid).0)
    case Decline(id, _) => w.(db := Declined(w.db, id))
    case End(id, sid) => w.(db := Ended(w.db, id, sid))
    case CleanStart(ids) =>
      w.(todo := ids, started := w.db.now, lastClean := if ids == [] then w.db.now else w.lastClean)
    case CleanNext =>
      if w.todo == [] then w
      else w.(db := CleanedOne(w.db, w.todo[0]), todo := w.todo[1..],
              lastClean := if |w.todo| == 1 then w.started else w.lastClean)
  }

  function Sends(w: World, step: Step): seq<Note> {
    match step
    case Accept(id, sid) => AcceptNotes(w.db, id, sid)
    case Decline(id, sid) => DeclineNotes(w.db, id, sid)
    case End(id, sid) => EndNotes(w.db, id, sid)
    case CleanNext => if w.todo == [] then [] else TimeoutNotes(w.db, w.todo[0])
    case _ => []
  }

  function Do(w: World, step: Step): World {
    Moved(w, step).(notes := w.notes + Sends(w, step))
  }

  /** The last completed cleanup began at most gap ago; chat IDs are fresh. */
  ghost predicate Enabled(w: World, gap: int, step: Step) {
    match step
    case Tick(ms) => w.db.now + ms <= w.lastClean + gap
    case Create(id, _, _) => id !in w.used
    case CleanStart(ids) => w.todo == [] && IsDue(w.db, ids)
    case _ => true
  }

  ghost predicate Initial(w: World) {
    w.lastClean >= 0 && w == World(Db(w.lastClean, map[], map[]), [], w.lastClean, w.lastClean, map[], [])
  }

  ghost predicate IsRun(ws: seq<World>, steps: seq<Step>, gap: int) {
    && |ws| == |steps| + 1
    && Initial(ws[0])
    && forall i :: 0 <= i < |steps| ==> Enabled(ws[i], gap, steps[i]) && ws[i + 1] == Do(ws[i], steps[i])
  }

  // ----- what every step keeps -----

  const CLEANUP_MARGIN := CHAT_TTL_PENDING - 1000 * ACCEPT_SECONDS

  /** A pending chat is tracked under its own deadline, was not due at the last completed
      cleanup, is on the list of the running one if it was due then, and is alive. */
  ghost predicate Tracked(w: World, id: string)
    requires id in w.db.chats
  {
    var k := w.db.chats[id];
    k.value.status == PendingAccept ==>
      && id in w.db.tracking && w.db.tracking[id] == k.value.acceptDeadline
      && k.expireAt - CHAT_TTL_PENDING <= w.db.now < k.expireAt
      && 0 <= k.value.acceptDeadline == Seconds(k.expireAt - CHAT_TTL_PENDING) + ACCEPT_SECONDS
      && Seconds(w.lastClean) < k.value.acceptDeadline
      && (k.value.acceptDeadline <= Seconds(w.started) ==> id in w.todo)
  }

  ghost predicate Good(w: World, id: string)
    requires id in w.db.chats
  {
    var c := w.db.chats[id].value;
    id in w.used && Tracked(w, id) && (c.status == Active <==> c.acceptedA && c.acceptedB)
  }

  ghost predicate OnTime(w: World, gap: int) {
    0 <= w.lastClean <= w.started <= w.db.now <= w.lastClean + gap
  }

  ghost predicate Inv(w: World, gap: int) {
    OnTime(w, gap) && forall id :: id in w.db.chats ==> Good(w, id)
  }

  lemma DeadlineLeavesTime(created: int, cleaned: int)
    requires Seconds(cleaned) < Seconds(created) + ACCEPT_SECONDS
    ensures cleaned < created + 1000 * ACCEPT_SECONDS
  {
  }

  lemma TickKeepsTracked(w: World, gap: int, ms: nat, id: string)
    requires 0 <= gap <= CLEANUP_MARGIN
    requires OnTime(w, gap) && Enabled(w, gap, Tick(ms)) && id in w.db.chats && Tracked(w, id)
    ensures Tracked(Do(w, Tick(ms)), id)
  {
    var k := w.db.chats[id];
    if k.value.status == PendingAccept {
      DeadlineLeavesTime(k.expireAt - CHAT_TTL_PENDING, w.lastClean);
    }
  }

  lemma StepKeepsChat(w: World, gap: int, step: Step, id: string)
    requires 0 <= gap <= CLEANUP_MARGIN
    requires OnTime(w, gap) && Enabled(w, gap, step)
    requires id in w.db.chats ==> Good(w, id)
    requires id in Do(w, step).db.chats
    ensures Good(Do(w, step), id)
  {
    hide Sends;
    if step.Tick? {
      TickKeepsTracked(w, gap, step.ms, id);
    }
  }

  lemma StepKeepsOnTime(w: World, gap: int, step: Step)
    requires OnTime(w, gap) && Enabled(w, gap, step)
    ensures OnTime(Do(w, step), gap)
  {
    hide Sends;
  }

  lemma StepKeepsInv(w: World, gap: int, step: Step)
    requires 0 <= gap <= CLEANUP_MARGIN
    requires Inv(w, gap) && Enabled(w, gap, step)
    ensures Inv(Do(w, step), gap)
  {
    var w' := Do(w, step);
    StepKeepsOnTime(w, gap, step);
    forall id | id in w'.db.chats ensures Good(w', id) {
      hide Good, OnTime, Do, Enabled;
      StepKeepsChat(w, gap, step, id);
    }
  }

  lemma {:induction false} RunKeepsInv(ws: seq<World>, steps: seq<Step>, gap: int, n: nat)
    requires IsRun(ws, steps, gap) && 0 <= gap <= CLEANUP_MARGIN && n < |ws|
    ensures Inv(ws[n], gap)
  {
    if n > 0 {
      hide Enabled, Do, Inv;
      RunKeepsInv(ws, steps, gap, n - 1);
      StepKeepsInv(ws[n - 1], gap, steps[n - 1]);
    }
  }

  /** In every reachable state a pending chat is tracked under its own deadline and is
      alive, and a chat is active exactly when both users have accepted. */
  lemma RunSafety(ws: seq<World>, steps: seq<Step>, gap: int, n: nat, id: string)
    requires IsRun(ws, steps, gap) && 0 <= gap <= CLEANUP_MARGIN && n < |ws|
    requires id in ws[n].db.chats
    ensures var db := ws[n].db; var c := db.chats[id].value;
      && (c.status == PendingAccept ==>
            IsPending(db, id) && id in db.tracking && db.tracking[id] == c.acceptDeadline)
      && (c.status == Active <==> c.acceptedA && c.acceptedB)
  {
    RunKeepsInv(ws, steps, gap, n);
    assert Good(ws[n], id);
  }

  // ----- forty-five seconds is the exact bound between cleanups -----

  ghost predicate NeverExpiresSilently(gap: int) {
    forall ws: seq<World>, steps: seq<Step>, n: nat, id: string ::
      IsRun(ws, steps, gap) && n < |ws| && id in ws[n].db.chats && ws[n].db.chats[id].value.status == PendingAccept ==>
        IsPending(ws[n].db, id)
  }

  /** With a longer gap: created at once, looked at just before the deadline, and gone
      when the next cleanup comes. */
  lemma SilentRun(gap: int) returns (ws: seq<World>, steps: seq<Step>)
    requires gap > CLEANUP_MARGIN
    ensures IsRun(ws, steps, gap) && |ws| == 5
    ensures "c" in ws[4].db.chats && ws[4].db.chats["c"].value.status == PendingAccept && !IsPending(ws[4].db, "c")
  {
    hide Sends;
    var w0 := World(Db(0, map[], map[]), [], 0, 0, map[], []);
    var w1 := Do(w0, Create("c", "a", "b"));
    var w2 := Do(w1, Tick(14_999));
    var w3 := Do(w2, CleanStart([]));
    var w4 := Do(w3, Tick(45_001));
    ws, steps := [w0, w1, w2, w3, w4], [Create("c", "a", "b"), Tick(14_999), CleanStart([]), Tick(45_001)];
    assert IsDue(w2.db, []);
  }

  lemma CleanupGapIsExact(gap: nat)
    ensures NeverExpiresSilently(gap) <==> gap <= 45_000
  {
    if gap <= CLEANUP_MARGIN {
      forall ws: seq<World>, steps: seq<Step>, n: nat, id: string |
        IsRun(ws, steps, gap) && n < |ws| && id in ws[n].db.chats && ws[n].db.chats[id].value.status == PendingAccept
        ensures IsPending(ws[n].db, id)
      {
        RunSafety(ws, steps, gap, n, id);
      }
    } else {
      var ws, steps := SilentRun(gap);
      assert !IsPending(ws[4].db, "c");
    }
  }

  // ----- the ways out of pending -----

  datatype Way = Activated | Refused | Expired | EndedEarly

  /** Whether the step takes chat id out of pending, and how. */
  ghost predicate Leaves(w: World, step: Step, id: string, way: Way) {
    && IsPending(w.db, id)
    && match way
       case Activated => step.Accept? && step.id == id && Accepted(w.db, id, step.sid).1 == 1
       case Refused => step.Decline? && step.id == id
       case Expired => step.CleanNext? && w.todo != [] && w.todo[0] == id
       case EndedEarly => step.End? && step.id == id && Get(w.db, id).value.IsParticipant(step.sid)
  }

  ghost function Exit(w: World, step: Step, id: string, way: Way): nat {
    if Leaves(w, step, id, way) then 1 else 0
  }

  ghost function Pending(w: World, id: string): nat {
    if IsPending(w.db, id) then 1 else 0
  }

  ghost function Birth(step: Step, id: string): nat {
    if step.Create? && step.id == id then 1 else 0
  }

  ghost predicate Balanced(w: World, step: Step, id: string) {
    Pending(w, id) + Birth(step, id) ==
    Pending(Do(w, step), id) + Exit(w, step, id, Activated) + Exit(w, step, id, Refused) +
    Exit(w, step, id, Expired) + Exit(w, step, id, EndedEarly)
  }

  lemma AcceptBalanced(w: World, id: string, i: string, sid: string)
    ensures Balanced(w, Accept(i, sid), id)
  {
  }

  lemma OtherBalanced(w: World, step: Step, id: string)
    requires !step.Accept?
    requires step.Create? && step.id == id ==> !IsPending(w.db, id)
    requires step.Tick? ==> (IsPending(w.db, id) <==> IsPending(Do(w, step).db, id))
    ensures Balanced(w, step, id)
  {
  }

  lemma StepLedger(w: World, gap: int, step: Step, id: string)
    requires 0 <= gap <= CLEANUP_MARGIN
    requires Inv(w, gap) && Enabled(w, gap, step)
    ensures Balanced(w, step, id)
  {
    hide Balanced;
    if step.Accept? {
      AcceptBalanced(w, id, step.id, step.sid);
    } else {
      if step.Tick? && id in w.db.chats {
        TickKeepsTracked(w, gap, step.ms, id);
      }
      OtherBalanced(w, step, id);
    }
  }

  ghost function TotalExits(ws: seq<World>, steps: seq<Step>, id: string, way: Way, n: nat): nat
    requires n <= |steps| < |ws|
  {
    if n == 0 then 0 else TotalExits(ws, steps, id, way, n - 1) + Exit(ws[n - 1], steps[n - 1], id, way)
  }

  ghost function TotalBirths(steps: seq<Step>, id: string, n: nat): nat
    requires n <= |steps|
  {
    if n == 0 then 0 else TotalBirths(steps, id, n - 1) + Birth(steps[n - 1], id)
  }

  lemma {:induction false} BornOnce(ws: seq<World>, steps: seq<Step>, gap: int, id: string, n: nat)
    requires IsRun(ws, steps, gap) && n <= |steps|
    ensures TotalBirths(steps, id, n) == if id in ws[n].used then 1 else 0
  {
    if n > 0 {
      BornOnce(ws, steps, gap, id, n - 1);
      assert Enabled(ws[n - 1], gap, steps[n - 1]) && ws[n] == Do(ws[n - 1], steps[n - 1]);
    }
  }

  /** Every chat created is still pending or has left pending in exactly one way; its time
      to live never takes it. */
  lemma {:induction false} ExactlyOneWayOut(ws: seq<World>, steps: seq<Step>, gap: int, id: string, n: nat)
    requires IsRun(ws, steps, gap) && 0 <= gap <= CLEANUP_MARGIN && n <= |steps|
    ensures TotalBirths(steps, id, n) ==
            Pending(ws[n], id) + TotalExits(ws, steps, id, Activated, n) + TotalExits(ws, steps, id, Refused, n) +
            TotalExits(ws, steps, id, Expired, n) + TotalExits(ws, steps, id, EndedEarly, n)
    ensures TotalBirths(steps, id, n) <= 1
  {
    BornOnce(ws, steps, gap, id, n);
    if n > 0 {
      hide Enabled, Do, Inv, Exit, Pending, Birth, IsPending;
      ExactlyOneWayOut(ws, steps, gap, id, n - 1);
      RunKeepsInv(ws, steps, gap, n - 1);
      StepLedger(ws[n - 1], gap, steps[n - 1], id);
    }
  }

  // ----- who hears of it -----

  /** A stored chat joins the two users its ID was handed out for. */
  ghost predicate Named(w: World, id: string) {
    id in w.db.chats ==> id in w.used && w.used[id] == (w.db.chats[id].value.userA, w.db.chats[id].value.userB)
  }

  lemma StepKeepsNamed(w: World, step: Step, id: string)
    requires Named(w, id)
    ensures Named(Do(w, step), id)
  {
    hide Sends;
  }

  lemma {:induction false} RunKeepsNamed(ws: seq<World>, steps: seq<Step>, gap: int, n: nat, id: string)
    requires IsRun(ws, steps, gap) && n < |ws|
    ensures Named(ws[n], id)
  {
    if n > 0 {
      hide Do, Named, Enabled;
      RunKeepsNamed(ws, steps, gap, n - 1, id);
      StepKeepsNamed(ws[n - 1], steps[n - 1], id);
    }
  }

  /** As how many of the chat's two users u takes part. */
  function Seats(w: World, id: string, u: string): nat {
    if id !in w.used then 0 else (if w.used[id].0 == u then 1 else 0) + (if w.used[id].1 == u then 1 else 0)
  }

  /** How often u has been sent this kind of note about the chat. */
  function Heard(w: World, u: string, kind: Kind, id: string): nat {
    multiset(w.notes)[Note(u, kind, id)]
  }

  /** How often the step itself sends it. */
  function Hears(w: World, step: Step, u: string, kind: Kind, id: string): nat {
    multiset(Sends(w, step))[Note(u, kind, id)]
  }

  lemma HeardStep(w: World, step: Step, u: string, kind: Kind, id: string)
    ensures Heard(Do(w, step), u, kind, id) == Heard(w, u, kind, id) + Hears(w, step, u, kind, id)
  {
    hide Sends, Moved;
  }

  lemma TimeoutNotesCount(db: Db, id: string, i: string, u: string)
    ensures multiset(TimeoutNotes(db, i))[Note(u, TimedOut, id)] ==
            if i == id && IsPending(db, id) && u != "" then
              (if Get(db, id).value.userA == u then 1 else 0) + (if Get(db, id).value.userB == u then 1 else 0)
            else 0
  {
  }

  lemma OthersSendNoTimeoutNotes(w: World, step: Step, id: string, u: string)
    requires !step.CleanNext? || w.todo == []
    ensures Hears(w, step, u, TimedOut, id) == 0
  {
  }

  lemma StepTimeoutNotes(w: World, step: Step, id: string, u: string)
    requires Named(w, id)
    ensures Hears(w, step, u, TimedOut, id) == if Leaves(w, step, id, Expired) && u != "" then Seats(w, id, u) else 0
  {
    hide AcceptNotes, DeclineNotes, EndNotes, TimeoutNotes;
    if step.CleanNext? && w.todo != [] {
      TimeoutNotesCount(w.db, id, w.todo[0], u);
    } else {
      OthersSendNoTimeoutNotes(w, step, id, u);
    }
  }

  lemma SeatsStay(w: World, gap: int, step: Step, id: string, u: string)
    requires Enabled(w, gap, step) && Named(w, id)
    ensures id in w.used ==> id in Do(w, step).used && Seats(Do(w, step), id, u) == Seats(w, id, u)
    ensures id !in w.used ==> !Leaves(w, step, id, Expired) && !Leaves(w, step, id, Activated)
  {
    hide Sends, Accepted, Declined, Ended, CleanedOne;
  }

  lemma RunStep(ws: seq<World>, steps: seq<Step>, gap: int, i: nat)
    requires IsRun(ws, steps, gap) && i < |steps|
    ensures Enabled(ws[i], gap, steps[i]) && ws[i + 1] == Do(ws[i], steps[i])
  {
    hide Enabled, Do;
  }

  /** In every run a user is sent one timed_out note for each of their chats that expires,
      and no other. */
  lemma {:induction false} TimeoutsAreHeard(ws: seq<World>, steps: seq<Step>, gap: int, id: string, u: string, n: nat)
    requires IsRun(ws, steps, gap) && n <= |steps|
    ensures Heard(ws[n], u, TimedOut, id) ==
            if u == "" then 0 else TotalExits(ws, steps, id, Expired, n) * Seats(ws[n], id, u)
    ensures id !in ws[n].used ==> TotalExits(ws, steps, id, Expired, n) == 0
  {
    hide Leaves, Do, Enabled, Hears, Seats;
    if n == 0 {
      assert ws[0].notes == [];
    } else {
      hide Heard, IsRun, Named;
      TimeoutsAreHeard(ws, steps, gap, id, u, n - 1);
      RunKeepsNamed(ws, steps, gap, n - 1, id);
      RunStep(ws, steps, gap, n - 1);
      HeardStep(ws[n - 1], steps[n - 1], u, TimedOut, id);
      StepTimeoutNotes(ws[n - 1], steps[n - 1], id, u);
      SeatsStay(ws[n - 1], gap, steps[n - 1], id, u);
      var before, now := TotalExits(ws, steps, id, Expired, n - 1), Exit(ws[n - 1], steps[n - 1], id, Expired);
      AddTimes(before, now, Seats(ws[n], id, u));
    }
  }

  lemma AddTimes(a: nat, b: nat, k: nat)
    ensures (a + b) * k == a * k + b * k
  {
  }

  ghost predicate Seated(w: World, id: string, u: string) {
    id in w.used && w.used[id].0 != w.used[id].1 && (u == w.used[id].0 || u == w.used[id].1)
  }

  lemma AcceptNotesCount(db: Db, id: string, i: string, sid: string, u: string)
    ensures var activates := i == id && Accepted(db, id, sid).1 == 1;
      && (activates ==> IsPending(db, id) && Get(db, id).value.IsParticipant(sid))
      && multiset(AcceptNotes(db, i, sid))[Note(u, Answered, id)] == (if activates && u == sid then 1 else 0)
      && multiset(AcceptNotes(db, i, sid))[Note(u, PartnerAccepted, id)] ==
         if activates && u == Get(db, id).value.GetPartner(sid) then 1 else 0
  {
  }

  lemma OthersSendNoAcceptNotes(w: World, step: Step, id: string, u: string)
    requires !step.Accept?
    ensures Hears(w, step, u, Answered, id) == Hears(w, step, u, PartnerAccepted, id) == 0
  {
  }

  lemma StepAcceptNotes(w: World, step: Step, id: string, u: string)
    requires Named(w, id)
    ensures Seated(w, id, u) ==>
              Hears(w, step, u, Answered, id) + Hears(w, step, u, PartnerAccepted, id) == Exit(w, step, id, Activated)
    ensures id !in w.used ==> Hears(w, step, u, Answered, id) == Hears(w, step, u, PartnerAccepted, id) == 0
  {
    hide AcceptNotes, DeclineNotes, EndNotes, TimeoutNotes, Accepted;
    if step.Accept? {
      AcceptNotesCount(w.db, id, step.id, step.sid, u);
    } else {
      OthersSendNoAcceptNotes(w, step, id, u);
    }
  }

  lemma SeatedStays(w: World, gap: int, step: Step, id: string, u: string)
    requires Enabled(w, gap, step)
    ensures Seated(Do(w, step), id, u) ==> Seated(w, id, u) || id !in w.used
    ensures id in w.used ==> id in Do(w, step).used
  {
    hide Sends, Accepted, Declined, Ended, CleanedOne;
  }

  /** In every run both users of a chat are told of its activation, once each: one by the
      answer to the completing call, the other by notification. */
  lemma {:induction false} ActivationsAreHeard(ws: seq<World>, steps: seq<Step>, gap: int, id: string, u: string,
                                               n: nat)
    requires IsRun(ws, steps, gap) && n <= |steps|
    ensures Seated(ws[n], id, u) ==>
              Heard(ws[n], u, Answered, id) + Heard(ws[n], u, PartnerAccepted, id) ==
              TotalExits(ws, steps, id, Activated, n)
    ensures id !in ws[n].used ==>
              Heard(ws[n], u, Answered, id) == Heard(ws[n], u, PartnerAccepted, id) ==
              TotalExits(ws, steps, id, Activated, n) == 0
  {
    hide Leaves, Do, Enabled, Hears, Seats;
    if n == 0 {
      assert ws[0].notes == [];
    } else {
      hide Heard, IsRun, Named, Seated;
      ActivationsAreHeard(ws, steps, gap, id, u, n - 1);
      RunKeepsNamed(ws, steps, gap, n - 1, id);
      RunStep(ws, steps, gap, n - 1);
      HeardStep(ws[n - 1], steps[n - 1], u, Answered, id);
      HeardStep(ws[n - 1], steps[n - 1], u, PartnerAccepted, id);
      StepAcceptNotes(ws[n - 1], steps[n - 1], id, u);
      SeatsStay(ws[n - 1], gap, steps[n - 1], id, u);
      SeatedStays(ws[n - 1], gap, steps[n - 1], id, u);
    }
  }

  /** A chat that expires is announced to both its users, and the cleanup leaves every
      chat that is not pending as it found it, even one accepted after the snapshot. */
  lemma CleanupSpeaksAndSpares(w: World, id: string, other: string)
    requires w.todo != [] && w.todo[0] == id
    ensures Leaves(w, CleanNext, id, Expired) ==>
              forall u :: u != "" && Get(w.db, id).value.IsParticipant(u) ==>
                Note(u, TimedOut, id) in TimeoutNotes(w.db, id)
    ensures Get(w.db, other).Some? && !(other == id && IsPending(w.db, id)) ==>
              Get(Do(w, CleanNext).db, other) == Get(w.db, other)
    ensures !IsPending(w.db, id) ==> TimeoutNotes(w.db, id) == []
  {
  }

  /** A decline deletes whatever live chat it names; of its users it tells exactly the one
      other than the decliner, and nobody if an outsider declines. */
  lemma DeclineHeard(db: Db, id: string, sid: string, u: string)
    requires Get(db, id).Some?
    requires var c := Get(db, id).value; c.userA != "" && c.userB != "" && c.userA != c.userB && c.IsParticipant(u)
    ensures Gone(db, Declined(db, id), id)
    ensures Note(u, PartnerDeclined, id) in DeclineNotes(db, id, sid) <==>
              Get(db, id).value.IsParticipant(sid) && u != sid
    ensures |DeclineNotes(db, id, sid)| == 1
  {
    var c := Get(db, id).value;
    assert DeclineNotes(db, id, sid)[0] == Note(c.GetPartner(sid), PartnerDeclined, id);
  }

  /** db' is db without the chat and its tracking entry, and the same otherwise. */
  ghost predicate Gone(db: Db, db': Db, id: string) {
    && db'.now == db.now
    && id !in db'.chats && id !in db'.tracking
    && (forall other :: other != id ==> Kept(db, db', other))
  }

  ghost predicate Kept(db: Db, db': Db, id: string) {
    && (id in db'.chats <==> id in db.chats) && (id in db.chats ==> db'.chats[id] == db.chats[id])
    && (id in db'.tracking <==> id in db.tracking) && (id in db.tracking ==> db'.tracking[id] == db.tracking[id])
  }

  /** A user of a live chat, pending or active, ends it: the chat is gone and the others
      listening to it are told; anybody else changes and says nothing. */
  lemma EndChatEnds(db: Db, id: string, sid: string)
    ensures Get(db, id).Some? && Get(db, id).value.IsParticipant(sid) ==>
              Gone(db, Ended(db, id, sid), id) && EndNotes(db, id, sid) == [PartnerLeft(id, sid)]
    ensures Get(db, id).None? || !Get(db, id).value.IsParticipant(sid) ==>
              Ended(db, id, sid) == db && EndNotes(db, id, sid) == []
  {
  }

  lemma OutsiderDeclineIsSilent()
    ensures var db := Created(Db(0, map[], map[]), "c", "a", "b");
      && IsPending(db, "c") && Get(Declined(db, "c"), "c").None?
      && Note("a", PartnerDeclined, "c") !in DeclineNotes(db, "c", "z")
      && Note("b", PartnerDeclined, "c") !in DeclineNotes(db, "c", "z")
  {
    var db := Created(Db(0, map[], map[]), "c", "a", "b");
    assert DeclineNotes(db, "c", "z") == [Note("", PartnerDeclined, "c")];
  }

  // ----- active chats -----

  /** A call that completes the pair makes the chat active for two hours. */
  lemma ActivationLasts(db: Db, id: string, sid: string)
    requires Accepted(db, id, sid).1 == 1
    ensures var db' := Accepted(db, id, sid).0;
      && id in db'.chats && db'.chats[id].value.status == Active && db'.chats[id].expireAt == db.now + 7_200_000
      && forall other :: other != id ==> Kept(db, db', other)
  {
  }

  /** The step ends the chat: anybody declines it or one of its users ends it. */
  ghost predicate Ends(w: World, step: Step, id: string) {
    || (step.Decline? && step.id == id)
    || (step.End? && step.id == id && id in w.used && (step.sid == w.used[id].0 || step.sid == w.used[id].1))
  }

  ghost predicate IsActive(db: Db, id: string) {
    Get(db, id).Some? && Get(db, id).value.status == Active
  }

  lemma ActiveStep(w: World, gap: int, step: Step, id: string)
    requires Enabled(w, gap, step) && Named(w, id) && IsActive(w.db, id)
    ensures var db' := Do(w, step).db;
      if Ends(w, step, id) then id !in db'.chats else id in db'.chats && db'.chats[id] == w.db.chats[id]
    ensures w.db.now <= Do(w, step).db.now
  {
    hide Sends;
  }

  lemma GoneStep(w: World, gap: int, step: Step, id: string)
    requires Enabled(w, gap, step) && id in w.used && id !in w.db.chats
    ensures id in Do(w, step).used && id !in Do(w, step).db.chats
    ensures w.db.now <= Do(w, step).db.now
  {
    hide Sends;
  }

  /** The chat has stayed as it was, or has been ended and is gone. */
  ghost predicate AsOnceActive(ws: seq<World>, steps: seq<Step>, id: string, n: nat, m: nat)
    requires n <= m < |ws| == |steps| + 1 && id in ws[n].db.chats
  {
    if exists i :: n <= i < m && Ends(ws[i], steps[i], id) then id in ws[m].used && id !in ws[m].db.chats
    else id in ws[m].db.chats && ws[m].db.chats[id] == ws[n].db.chats[id]
  }

  lemma EndsExtends(ws: seq<World>, steps: seq<Step>, id: string, n: nat, m: nat)
    requires n < m < |ws| == |steps| + 1
    ensures (exists i :: n <= i < m && Ends(ws[i], steps[i], id)) <==>
            (exists i :: n <= i < m - 1 && Ends(ws[i], steps[i], id)) || Ends(ws[m - 1], steps[m - 1], id)
  {
    hide Ends;
  }

  lemma {:induction false} ActiveRun(ws: seq<World>, steps: seq<Step>, gap: int, id: string, n: nat, m: nat)
    requires IsRun(ws, steps, gap) && n <= m < |ws|
    requires IsActive(ws[n].db, id) && ws[m].db.now < ws[n].db.chats[id].expireAt
    ensures AsOnceActive(ws, steps, id, n, m)
    decreases m - n
  {
    hide Enabled, Do, Ends, Initial;
    if n < m {
      var w, step := ws[m - 1], steps[m - 1];
      RunStep(ws, steps, gap, m - 1);
      RunKeepsNamed(ws, steps, gap, m - 1, id);
      ClockStep(w, step);
      ActiveRun(ws, steps, gap, id, n, m - 1);
      EndsExtends(ws, steps, id, n, m);
      if id in w.db.chats {
        ActiveStep(w, gap, step, id);
        UsedStep(w, step, id);
      } else {
        GoneStep(w, gap, step, id);
      }
    }
  }

  lemma ClockStep(w: World, step: Step)
    ensures w.db.now <= Do(w, step).db.now
  {
    hide Sends;
  }

  lemma UsedStep(w: World, step: Step, id: string)
    requires Named(w, id) && id in w.db.chats
    ensures id in Do(w, step).used
  {
    hide Sends, Accepted, Declined, Ended, CleanedOne;
  }

  /** Until its two hours are over an active chat is gone exactly when some step has declined
      or ended it, and is what it was otherwise. */
  lemma ActiveUntilEnded(ws: seq<World>, steps: seq<Step>, gap: int, id: string, n: nat, m: nat)
    requires IsRun(ws, steps, gap) && n <= m < |ws|
    requires IsActive(ws[n].db, id) && ws[m].db.now < ws[n].db.chats[id].expireAt
    ensures Get(ws[m].db, id).None? <==> exists i :: n <= i < m && Ends(ws[i], steps[i], id)
    ensures Get(ws[m].db, id).Some? ==> Get(ws[m].db, id) == Get(ws[n].db, id)
  {
    hide IsRun, Ends;
    assert |ws| == |steps| + 1 by { RunLength(ws, steps, gap); }
    ActiveRun(ws, steps, gap, id, n, m);
  }

  lemma RunLength(ws: seq<World>, steps: seq<Step>, gap: int)
    requires IsRun(ws, steps, gap)
    ensures |ws| == |steps| + 1
  {
  }

  // ----- what a whole cleanup leaves -----

  ghost predicate DueIn(db: Db, id: string) {
    id in db.tracking && 0 <= db.tracking[id] <= Seconds(db.now)
  }

  lemma {:induction false} CleanedEach(db: Db, ids: seq<string>, id: string)
    ensures var db' := CleanedAll(db, ids);
      && db'.now == db.now
      && (id !in ids ==> Kept(db, db', id))
      && (id in ids ==> id !in db'.tracking)
      && (id in ids && IsPending(db, id) ==> id !in db'.chats)
      && (!IsPending(db, id) ==> (id in db'.chats <==> id in db.chats) && Get(db', id) == Get(db, id))
  {
    if ids != [] {
      CleanedEach(db, ids[..|ids| - 1], id);
      assert ids == ids[..|ids| - 1] + [ids[|ids| - 1]];
    }
  }

  /** After a cleanup nothing that was due is tracked or pending any more, and everything
      else is as before. */
  lemma CleanupClears(db: Db, ids: seq<string>, id: string)
    requires IsDue(db, ids)
    ensures var db' := CleanedAll(db, ids);
      && !DueIn(db', id)
      && (DueIn(db, id) ==> !IsPending(db', id))
      && (!DueIn(db, id) ==> Kept(db, db', id))
      && (!IsPending(db, id) ==> Get(db', id) == Get(db, id))
  {
    hide CleanedAll;
    CleanedEach(db, ids, id);
  }

  // ----- the uninterrupted cleanup -----

  function Cleaning(w: World, n: nat): World {
    if n == 0 then w else Do(Cleaning(w, n - 1), CleanNext)
  }

  /** Without interruption the single steps add up to the cleanup method. */
  lemma {:induction false} UninterruptedCleanup(w: World, n: nat)
    requires n <= |w.todo|
    ensures Cleaning(w, n).db == CleanedAll(w.db, w.todo[..n]) && Cleaning(w, n).todo == w.todo[n..]
    ensures Cleaning(w, n).notes == w.notes + CleanupNotes(w.db, w.todo[..n])
  {
    hide CleanedOne, TimeoutNotes, Moved, Sends;
    if n == 0 {
      assert w.todo[..0] == [];
    } else {
      UninterruptedCleanup(w, n - 1);
      assert w.todo[..n][..n - 1] == w.todo[..n - 1];
      assert w.todo[n - 1..][1..] == w.todo[n..];
      hide Do;
      CleanNextStep(Cleaning(w, n - 1));
    }
  }

  lemma CleanNextStep(w: World)
    requires w.todo != []
    ensures var w' := Do(w, CleanNext);
      && w'.db == CleanedOne(w.db, w.todo[0])
      && w'.todo == w.todo[1..]
      && w'.notes == w.notes + TimeoutNotes(w.db, w.todo[0])
  {
    hide CleanedOne, TimeoutNotes;
  }
}
